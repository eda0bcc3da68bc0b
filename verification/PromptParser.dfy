/**
 * The three prompt extractors of src/prompt_utils/prompt_parser.py. Each
 * strips the prompt, runs one `re.search` and either builds a record or
 * raises `ValueError` (here `Err` with the exception's message).
 *
 * Every regular expression is given twice: as a declarative shape (which
 * positions of the prompt the pattern can match, read off the pattern) and
 * as the engine's deterministic procedure (leftmost start, greedy and lazy
 * choices tried in the engine's order). The lemmas show that the engine
 * finds a match exactly when the shape occurs, reports the leftmost one, and
 * that what it reports has the shape.
 */
module PromptParser {
  import opened Wrappers
  import opened Text
  import opened Patterns
  import opened Lexing
  import opened Scan

  // ---------------------------------------------------------------- detect

  /** The keyword arguments of the detect tool, as the parser fills them. */
  datatype ParsedDetect = ParsedDetect(
    filePath: string,
    isUrl: bool,
    returnMask: bool,
    returnGlasses: bool,
    returnHeadPose: bool,
    returnOcclusion: bool,
    returnBlur: bool,
    returnExposure: bool,
    returnQualityForRecognition: bool,
    returnAge: bool,
    returnLandmarks: bool)

  const DetectNoImage := "Could not find image path or URL in prompt."

  /** The record built once the image reference is known: the flags come from the stripped prompt `p`. */
  function DetectRecord(path: string, isUrl: bool, p: string): ParsedDetect
  {
    var lower := LowerString(p);
    ParsedDetect(path, isUrl, Contains(lower, "mask"), Contains(lower, "glasses"),
                 false, false, false, false, false, false, false)
  }

  /** `parse_prompt_for_detect`: a URL if there is one, otherwise a local path, and the two keyword flags. */
  function ParseDetect(prompt: string): Result<ParsedDetect, string>
  {
    var p := Strip(prompt);
    SearchBounds(Url, p, 0);
    SearchBounds(Local, p, 0);
    match Search(Url, p, 0)
    case Some((i, e)) => Ok(DetectRecord(p[i..e], true, p))
    case None =>
      match Search(Local, p, 0)
      case Some((i, e)) => Ok(DetectRecord(p[i..e], false, p))
      case None => Err(DetectNoImage)
  }

  /** A URL anywhere in the prompt wins: the result is the leftmost, shortest URL match. */
  lemma DetectPrefersUrl(prompt: string)
    ensures var p := Strip(prompt);
      (exists i: nat, e: nat :: Span(Url, p, i, e)) <==> (ParseDetect(prompt).Ok? && ParseDetect(prompt).value.isUrl)
    ensures var p := Strip(prompt);
      ParseDetect(prompt).Ok? && ParseDetect(prompt).value.isUrl ==>
        exists i: nat, e: nat :: IsFirstMatch(Url, p, i, e) && ParseDetect(prompt).value.filePath == p[i..e]
  {
    var p := Strip(prompt);
    SearchIsFirstMatch(Url, p);
    if Search(Url, p, 0).Some? {
      var (i, e) := Search(Url, p, 0).value;
      assert IsFirstMatch(Url, p, i, e);
    }
  }

  /** Without a URL the local pattern decides: the leftmost, shortest local path, with `is_url` false. */
  lemma DetectFallsBackToLocal(prompt: string)
    ensures var p := Strip(prompt);
      ParseDetect(prompt).Ok? && !ParseDetect(prompt).value.isUrl <==>
        (forall i: nat, e: nat :: !Span(Url, p, i, e)) && (exists i: nat, e: nat :: Span(Local, p, i, e))
    ensures var p := Strip(prompt);
      ParseDetect(prompt).Ok? && !ParseDetect(prompt).value.isUrl ==>
        exists i: nat, e: nat :: IsFirstMatch(Local, p, i, e) && ParseDetect(prompt).value.filePath == p[i..e]
  {
    var p := Strip(prompt);
    SearchIsFirstMatch(Url, p);
    SearchIsFirstMatch(Local, p);
    if Search(Url, p, 0).None? && Search(Local, p, 0).Some? {
      var (i, e) := Search(Local, p, 0).value;
      assert IsFirstMatch(Local, p, i, e);
    }
  }

  /** `ValueError` exactly when neither pattern occurs in the stripped prompt. */
  lemma DetectFailsWithoutImage(prompt: string)
    ensures var p := Strip(prompt);
      ParseDetect(prompt).Err? <==>
        (forall i: nat, e: nat :: !Span(Url, p, i, e)) && (forall i: nat, e: nat :: !Span(Local, p, i, e))
    ensures ParseDetect(prompt).Err? ==> ParseDetect(prompt).error == DetectNoImage
  {
    var p := Strip(prompt);
    SearchIsFirstMatch(Url, p);
    SearchIsFirstMatch(Local, p);
  }

  /**
   * The mask and glasses flags are substring tests on the lower-cased,
   * stripped prompt; the seven other flags are always off.
   */
  lemma DetectFlags(prompt: string)
    requires ParseDetect(prompt).Ok?
    ensures var d := ParseDetect(prompt).value; var p := Strip(prompt);
      d.returnMask == Contains(LowerString(p), "mask")
      && d.returnGlasses == Contains(LowerString(p), "glasses")
      && !d.returnHeadPose && !d.returnOcclusion && !d.returnBlur && !d.returnExposure
      && !d.returnQualityForRecognition && !d.returnAge && !d.returnLandmarks
  {
    var p := Strip(prompt);
    SearchBounds(Url, p, 0);
    SearchBounds(Local, p, 0);
    if Search(Url, p, 0).Some? {
      var (i, e) := Search(Url, p, 0).value;
      assert ParseDetect(prompt).value == DetectRecord(p[i..e], true, p);
    } else {
      var (i, e) := Search(Local, p, 0).value;
      assert ParseDetect(prompt).value == DetectRecord(p[i..e], false, p);
    }
  }

  // --------------------------------------------------------------- compare

  datatype ParsedCompare = ParsedCompare(left: string, right: string, leftIsUrl: bool, rightIsUrl: bool)

  const CompareUnrecognized := "Unrecognized compare prompt format"

  /** The group `(?:LOCAL|URL)` matches `s[a..b]`. */
  predicate ImageSpan(s: string, a: nat, b: nat)
  {
    Span(Local, s, a, b) || Span(Url, s, a, b)
  }

  /** `\s+with\s+(?:the\s+)?` is `s[b..c]`. */
  ghost predicate WithGap(s: string, b: nat, c: nat)
  {
    exists w: nat :: SpaceThen(s, b, "with", w) && LeadIn(s, w, c)
  }

  /**
   * `\bcompare\s+(?:the\s+)?(?P<left>LOCAL|URL)\s+with\s+(?:the\s+)?(?P<right>LOCAL|URL)`
   * matches from `i`, with the left group `s[a..b]` and the right group `s[c..d]`.
   */
  ghost predicate CompareShape(s: string, i: nat, a: nat, b: nat, c: nat, d: nat)
  {
    Boundary(s, i) && CiAt(s, i, "compare") && LeadIn(s, i + 7, a)
    && ImageSpan(s, a, b) && WithGap(s, b, c) && ImageSpan(s, c, d)
  }

  /** The engine on the final `(?:LOCAL|URL)`: the shortest local span, else the shortest URL span. */
  function ImageEnd(s: string, c: nat): Option<nat>
  {
    match FirstEnd(Local, s, c)
    case Some(d) => Some(d)
    case None => FirstEnd(Url, s, c)
  }

  /** The engine on `\s+with\s+(?:the\s+)?(?P<right>...)` after the left group ends at `b`. */
  function CompareRight(s: string, b: nat): Option<(nat, nat)>
    requires b <= |s|
  {
    match KwAfter(s, b, "with")
    case None => None
    case Some(w) =>
      match LeadInEnd(s, w)
      case None => None
      case Some(c) =>
        match ImageEnd(s, c)
        case None => None
        case Some(d) => Some((c, d))
  }

  /** What follows the left group, as the continuation its lazy run backtracks into. */
  function CompareRest(s: string): nat -> Option<(nat, nat)>
  {
    (b: nat) => if b <= |s| then CompareRight(s, b) else None
  }

  /** The engine at start `i`: the left group tries local candidates, then URL candidates, each shortest first. */
  function CompareAt(s: string, i: nat): Option<(nat, nat, nat, nat)>
    requires i <= |s|
  {
    if Boundary(s, i) && CiAt(s, i, "compare") then
      match LeadInEnd(s, i + 7)
      case None => None
      case Some(a) =>
        var viaLocal := StartRun(Local, s, a, CompareRest(s));
        var left := if viaLocal.Some? then viaLocal else StartRun(Url, s, a, CompareRest(s));
        match left
        case None => None
        case Some((b, cd)) => Some((a, b, cd.0, cd.1))
    else None
  }

  lemma ImageEndSound(s: string, c: nat)
    requires ImageEnd(s, c).Some?
    ensures ImageSpan(s, c, ImageEnd(s, c).value)
  {
    if FirstEnd(Local, s, c).Some? {
      FirstEndSound(Local, s, c);
    } else {
      FirstEndSound(Url, s, c);
    }
  }

  /**
   * `s[c..d]` is what the final `(?:LOCAL|URL)` captures: the shortest local
   * span at `c`, or, when there is none, the shortest URL span there.
   */
  ghost predicate ShortestImage(s: string, c: nat, d: nat)
  {
    (Span(Local, s, c, d) && forall d': nat :: d' < d ==> !Span(Local, s, c, d'))
    || ((forall d': nat :: !Span(Local, s, c, d'))
        && Span(Url, s, c, d) && forall d': nat :: d' < d ==> !Span(Url, s, c, d'))
  }

  /** The engine on the final group ends where the shortest local span ends, else the shortest URL span. */
  lemma ImageEndShortest(s: string, c: nat)
    requires ImageEnd(s, c).Some?
    ensures ShortestImage(s, c, ImageEnd(s, c).value)
  {
    FirstEndIsShortest(Local, s, c);
    FirstEndIsShortest(Url, s, c);
  }

  lemma ImageEndComplete(s: string, c: nat, d: nat)
    requires ImageSpan(s, c, d)
    ensures ImageEnd(s, c).Some?
  {
    if Span(Local, s, c, d) {
      FirstEndLeast(Local, s, c, d);
    } else {
      FirstEndLeast(Url, s, c, d);
    }
  }

  lemma CompareRightSound(s: string, b: nat)
    requires b <= |s| && CompareRight(s, b).Some?
    ensures WithGap(s, b, CompareRight(s, b).value.0)
    ensures ImageSpan(s, CompareRight(s, b).value.0, CompareRight(s, b).value.1)
  {
    var w := KwAfter(s, b, "with").value;
    var c := LeadInEnd(s, w).value;
    assert SpaceThen(s, b, "with", w) && LeadIn(s, w, c);
    ImageEndSound(s, c);
  }

  /** Whatever the right side, the engine finds it once the left group ends in the right place. */
  lemma CompareRightComplete(s: string, b: nat, c: nat, d: nat)
    requires b <= |s| && WithGap(s, b, c) && ImageSpan(s, c, d)
    ensures CompareRight(s, b).Some?
  {
    var w :| SpaceThen(s, b, "with", w) && LeadIn(s, w, c);
    KwAfterComplete(s, b, "with", w);
    if Span(Local, s, c, d) {
      SpanStartsElement(Local, s, c, d);
    } else {
      SpanStartsElement(Url, s, c, d);
    }
    LeadInEndComplete(s, w, c);
    ImageEndComplete(s, c, d);
  }

  lemma CompareAtSound(s: string, i: nat)
    requires i <= |s| && CompareAt(s, i).Some?
    ensures var (a, b, c, d) := CompareAt(s, i).value; CompareShape(s, i, a, b, c, d)
  {
    var a := LeadInEnd(s, i + 7).value;
    var viaLocal := StartRun(Local, s, a, CompareRest(s));
    StartRunSpec(Local, s, a, CompareRest(s));
    StartRunSpec(Url, s, a, CompareRest(s));
    var left := if viaLocal.Some? then viaLocal else StartRun(Url, s, a, CompareRest(s));
    var b := left.value.0;
    assert ImageSpan(s, a, b);
    assert CompareRest(s)(b) == Some(left.value.1);
    CompareRightSound(s, b);
  }

  /** The left group is found when some span there is followed by a right side. */
  lemma CompareLeftComplete(s: string, a: nat, b: nat)
    requires a <= |s| && ImageSpan(s, a, b) && CompareRest(s)(b).Some?
    ensures StartRun(Local, s, a, CompareRest(s)).Some? || StartRun(Url, s, a, CompareRest(s)).Some?
  {
    StartRunSpec(Local, s, a, CompareRest(s));
    StartRunSpec(Url, s, a, CompareRest(s));
  }

  /** The right side the engine reports at `i` is the one the final group captures. */
  lemma CompareAtRight(s: string, i: nat)
    requires i <= |s| && CompareAt(s, i).Some?
    ensures var (a, b, c, d) := CompareAt(s, i).value; ShortestImage(s, c, d)
  {
    var a := LeadInEnd(s, i + 7).value;
    var viaLocal := StartRun(Local, s, a, CompareRest(s));
    StartRunSpec(Local, s, a, CompareRest(s));
    StartRunSpec(Url, s, a, CompareRest(s));
    var left := if viaLocal.Some? then viaLocal else StartRun(Url, s, a, CompareRest(s));
    var b := left.value.0;
    assert CompareRest(s)(b) == Some(left.value.1);
    var w := KwAfter(s, b, "with").value;
    var c := LeadInEnd(s, w).value;
    assert left.value.1 == (c, ImageEnd(s, c).value);
    ImageEndShortest(s, c);
  }

  lemma CompareAtComplete(s: string, i: nat, a: nat, b: nat, c: nat, d: nat)
    requires CompareShape(s, i, a, b, c, d)
    ensures i <= |s| && CompareAt(s, i).Some?
  {
    var pat := if Span(Local, s, a, b) then Local else Url;
    SpanStartsElement(pat, s, a, b);
    SpanBounds(pat, s, a, b);
    LeadInEndComplete(s, i + 7, a);
    CompareRightComplete(s, b, c, d);
    CompareLeftComplete(s, a, b);
  }

  lemma CompareAtBounds(s: string, i: nat)
    requires i <= |s| && CompareAt(s, i).Some?
    ensures var (a, b, c, d) := CompareAt(s, i).value; a < b <= |s| && c < d <= |s|
  {
    CompareAtSound(s, i);
    var (a, b, c, d) := CompareAt(s, i).value;
    SpanBounds(if Span(Local, s, a, b) then Local else Url, s, a, b);
    SpanBounds(if Span(Local, s, c, d) then Local else Url, s, c, d);
  }

  /** The engine's match of the compare pattern at each start; none starts past the end. */
  function CompareStarts(s: string): nat -> Option<(nat, nat, nat, nat)>
  {
    (i: nat) => if i <= |s| then CompareAt(s, i) else None
  }

  /** `_COMPARE_RE.search`: the first start, left to right, at which the engine matches. */
  function CompareSearch(s: string, from: nat): Option<(nat, (nat, nat, nat, nat))>
  {
    FirstFrom(CompareStarts(s), from, |s| + 1)
  }

  /** The compare pattern matches with its `\b` at `i`. */
  ghost predicate CompareMatchAt(s: string, i: nat)
  {
    exists a: nat, b: nat, c: nat, d: nat :: CompareShape(s, i, a, b, c, d)
  }

  lemma NoCompareShapeAt(s: string, i: nat)
    requires i <= |s| && CompareAt(s, i).None?
    ensures !CompareMatchAt(s, i)
  {
    if CompareMatchAt(s, i) {
      var a: nat, b: nat, c: nat, d: nat :| CompareShape(s, i, a, b, c, d);
      CompareAtComplete(s, i, a, b, c, d);
    }
  }

  lemma NoCompareShapePastEnd(s: string, i: nat)
    requires i > |s|
    ensures !CompareMatchAt(s, i)
  {
  }

  lemma CompareSearchSpec(s: string, from: nat)
    requires from <= |s|
    ensures CompareSearch(s, from).Some? ==>
      var (i, t) := CompareSearch(s, from).value;
      from <= i <= |s| && CompareAt(s, i) == Some(t)
      && forall i': nat :: from <= i' < i ==> !CompareMatchAt(s, i')
    ensures CompareSearch(s, from).None? ==>
      forall i': nat :: from <= i' ==> !CompareMatchAt(s, i')
  {
    var at := CompareStarts(s);
    FirstFromSpec(at, from, |s| + 1);
    forall i': nat | at(i').None?
      ensures !CompareMatchAt(s, i')
    {
      if i' > |s| {
        NoCompareShapePastEnd(s, i');
      } else {
        NoCompareShapeAt(s, i');
      }
    }
  }

  /** `parse_prompt_for_compare`. */
  function ParseCompare(prompt: string): Result<ParsedCompare, string>
  {
    var p := Strip(prompt);
    match CompareSearch(p, 0)
    case None => Err(CompareUnrecognized)
    case Some((i, t)) =>
      var (a, b, c, d) := t;
      CompareSearchSpec(p, 0);
      CompareAtBounds(p, i);
      var left := p[a..b];
      var right := p[c..d];
      Ok(ParsedCompare(left, right, IsUrl(left), IsUrl(right)))
  }

  /** A compare prompt is rejected exactly when the `compare [the] X with [the] Y` shape occurs nowhere in it. */
  lemma CompareRejects(prompt: string)
    ensures var p := Strip(prompt);
      ParseCompare(prompt).Err? <==> forall i: nat :: !CompareMatchAt(p, i)
    ensures ParseCompare(prompt).Err? ==> ParseCompare(prompt).error == CompareUnrecognized
  {
    var p := Strip(prompt);
    CompareErrIffNoMatch(prompt);
    CompareSearchSpec(p, 0);
    if CompareSearch(p, 0).Some? {
      var (i, t) := CompareSearch(p, 0).value;
      var (a, b, c, d) := t;
      CompareAtSound(p, i);
      assert CompareShape(p, i, a, b, c, d);
      assert CompareMatchAt(p, i);
    } else {
      assert forall i: nat :: !CompareMatchAt(p, i);
    }
  }

  lemma CompareErrIffNoMatch(prompt: string)
    ensures ParseCompare(prompt).Err? <==> CompareSearch(Strip(prompt), 0).None?
    ensures ParseCompare(prompt).Err? ==> ParseCompare(prompt).error == CompareUnrecognized
  {
  }

  /** The URL pattern matches a slice in isolation exactly when it matches that slice in place. */
  lemma UrlFlagInPlace(p: string, a: nat, b: nat)
    requires a <= b <= |p|
    ensures IsUrl(p[a..b]) == Span(Url, p, a, b)
  {
    SpanSlice(Url, p, a, b);
  }

  /**
   * `r` is what the prompt `p` yields from the leftmost occurrence of the
   * compare shape, at `i` with sides `p[a..b]` and `p[c..d]`. Each side's URL
   * flag is computed as a full match of the URL pattern on that side's own
   * text; it holds exactly when the URL pattern matches that side where it
   * stands in the prompt.
   */
  ghost predicate CompareCaptured(p: string, r: ParsedCompare, i: nat, a: nat, b: nat, c: nat, d: nat)
  {
    CompareShape(p, i, a, b, c, d) && b <= |p| && d <= |p|
    && r.left == p[a..b] && r.right == p[c..d]
    && r.leftIsUrl == Span(Url, p, a, b) && r.rightIsUrl == Span(Url, p, c, d)
    && ShortestImage(p, c, d)
    && (forall i': nat :: i' < i ==> !CompareMatchAt(p, i'))
  }

  /** An accepted compare prompt is captured from the leftmost occurrence of the shape. */
  lemma CompareAccepts(prompt: string)
    requires ParseCompare(prompt).Ok?
    ensures exists i: nat, a: nat, b: nat, c: nat, d: nat ::
      CompareCaptured(Strip(prompt), ParseCompare(prompt).value, i, a, b, c, d)
  {
    var p := Strip(prompt);
    var (i, t) := CompareSearch(p, 0).value;
    var (a, b, c, d) := t;
    assert CompareShape(p, i, a, b, c, d) && b <= |p| && d <= |p| by {
      CompareSearchSpec(p, 0);
      CompareAtSound(p, i);
      CompareAtBounds(p, i);
    }
    assert ShortestImage(p, c, d) by {
      CompareSearchSpec(p, 0);
      CompareAtRight(p, i);
    }
    assert forall i': nat :: i' < i ==> !CompareMatchAt(p, i') by {
      CompareSearchSpec(p, 0);
    }
    var r := ParseCompare(prompt).value;
    assert r == ParsedCompare(p[a..b], p[c..d], IsUrl(p[a..b]), IsUrl(p[c..d]));
    UrlFlagInPlace(p, a, b);
    UrlFlagInPlace(p, c, d);
    assert CompareCaptured(p, r, i, a, b, c, d);
  }

  // ---------------------------------------------------------------- enroll

  datatype ParsedEnroll = ParsedEnroll(
    filePathList: seq<string>,
    personName: string,
    groupUuid: string,
    isUrl: bool,
    checkQuality: bool)

  const EnrollUnrecognized := "Unrecognized enroll prompt format"

  /** Where an enroll match puts its groups: the file group ends at `fileEnd`; group and person are slices. */
  datatype EnrollHit = EnrollHit(fileEnd: nat, groupStart: nat, groupEnd: nat, personStart: nat, personEnd: nat)

  /** `\benroll\s+(?:the\s+)?face[s]?\s+in\s+` from `i`, the file group starting at `a`. */
  ghost predicate EnrollLead(s: string, i: nat, a: nat)
  {
    Boundary(s, i) && CiAt(s, i, "enroll")
    && exists f: nat :: LeadIn(s, i + 6, f) && CiAt(s, f, "face") && FacesIn(s, f + 4, a)
  }

  /** `[s]?\s+in\s+` from `x` to `a`. */
  ghost predicate FacesIn(s: string, x: nat, a: nat)
  {
    InGap(s, x, a) || (LetterAt(s, x, 's') && InGap(s, x + 1, a))
  }

  /** `\s+in\s+` from `n` to `a`. */
  ghost predicate InGap(s: string, n: nat, a: nat)
  {
    exists t: nat :: SpaceThen(s, n, "in", t) && t < a && AllSpaceIn(s, t, a)
  }

  /** The engine on `[s]?\s+in\s+` at `x`: where the file group starts. */
  function FacesEnd(s: string, x: nat): (r: Option<nat>)
    requires x <= |s|
    ensures r.Some? ==> r.value <= |s|
  {
    var n := if LetterAt(s, x, 's') then x + 1 else x;
    match KwAfter(s, n, "in")
    case None => None
    case Some(t) =>
      var a := WsEnd(s, t);
      if a == t then None else Some(a)
  }

  /** The engine on the lead: where the file group starts. */
  function EnrollLeadEnd(s: string, i: nat): (r: Option<nat>)
    requires i <= |s|
    ensures r.Some? ==> r.value <= |s|
  {
    if Boundary(s, i) && CiAt(s, i, "enroll") then
      match LeadInEnd(s, i + 6)
      case None => None
      case Some(f) =>
        if !CiAt(s, f, "face") then None else FacesEnd(s, f + 4)
    else None
  }

  /** `\s*,\s*` is `s[m..v]`. */
  ghost predicate SepComma(s: string, m: nat, v: nat)
  {
    exists u: nat :: m <= u < v && AllSpaceIn(s, m, u) && AllSpaceIn(s, u + 1, v) && s[u] == ','
  }

  /** One repetition of `(?:\s*,\s*LOCAL|URL)` is `s[m..m2]`. */
  ghost predicate Item(s: string, m: nat, m2: nat)
  {
    (exists v: nat :: SepComma(s, m, v) && Span(Local, s, v, m2)) || Span(Url, s, m, m2)
  }

  /** `(?:\s*,\s*LOCAL|URL)*` is `s[m..b]`. */
  ghost predicate Items(s: string, m: nat, b: nat)
    decreases b - m
  {
    m == b || (m < b && exists m2: nat :: m < m2 <= b && Item(s, m, m2) && Items(s, m2, b))
  }

  /**
   * The file group `LOCAL|URL(?:\s*,\s*LOCAL|URL)*` is `s[a..b]`. By the
   * precedence of `|`, a list is only possible after a leading URL; a
   * leading local path stands alone.
   */
  ghost predicate FileGroup(s: string, a: nat, b: nat)
  {
    Span(Local, s, a, b) || exists m: nat :: Span(Url, s, a, m) && Items(s, m, b)
  }

  /** `\s+to\s+(?:the\s+)?person\s+group` from `b` to `z`. */
  ghost predicate ToPersonGroup(s: string, b: nat, z: nat)
  {
    exists w: nat :: SpaceThen(s, b, "to", w)
                && exists y: nat :: LeadIn(s, w, y) && CiAt(s, y, "person") && SpaceThen(s, y + 6, "group", z)
  }

  /** `['"]?\s+as` from `g2` to `t`. */
  ghost predicate AsAfter(s: string, g2: nat, t: nat)
  {
    exists q: nat :: OptQuote(s, g2, q) && SpaceThen(s, q, "as", t)
  }

  /** Everything after the file group, with the group name `s[g1..g2]` and person name `s[p1..p2]`. */
  ghost predicate EnrollTailShape(s: string, b: nat, g1: nat, g2: nat, p1: nat, p2: nat)
  {
    exists z: nat :: ToPersonGroup(s, b, z) && QuotedName(s, z, g1, g2)
                && exists t: nat :: AsAfter(s, g2, t) && QuotedName(s, t, p1, p2)
  }

  /** `_ENROLL_RE` matches from `i`, the file group starting at `a`, the other groups where `h` says. */
  ghost predicate EnrollShape(s: string, i: nat, a: nat, h: EnrollHit)
  {
    EnrollLead(s, i, a) && FileGroup(s, a, h.fileEnd)
    && EnrollTailShape(s, h.fileEnd, h.groupStart, h.groupEnd, h.personStart, h.personEnd)
  }

  /** The engine on `\s+to\s+(?:the\s+)?person\s+group`: where the keyword `group` ends. */
  function GroupKwEnd(s: string, b: nat): (r: Option<nat>)
    requires b <= |s|
    ensures r.Some? ==> r.value <= |s|
  {
    match KwAfter(s, b, "to")
    case None => None
    case Some(w) =>
      match LeadInEnd(s, w)
      case None => None
      case Some(y) =>
        if !CiAt(s, y, "person") then None else KwAfter(s, y + 6, "group")
  }

  /** The engine on everything after the file group: deterministic, the person name as long as possible. */
  function EnrollTail(s: string, b: nat): Option<EnrollHit>
    requires b <= |s|
  {
    match GroupKwEnd(s, b)
    case None => None
    case Some(z) =>
      match NameAfter(s, z)
      case None => None
      case Some((g1, g2)) =>
        match KwAfter(s, SkipQuote(s, g2), "as")
        case None => None
        case Some(t) =>
          match NameAfter(s, t)
          case None => None
          case Some((p1, p2)) => Some(EnrollHit(b, g1, g2, p1, p2))
  }

  /** The engine on `\s*,\s*` at `m`: where the next local path starts. */
  function SepEnd(s: string, m: nat): (r: Option<nat>)
    requires m <= |s|
    ensures r.Some? ==> m < r.value <= |s|
  {
    var u := WsEnd(s, m);
    if u < |s| && s[u] == ',' then Some(WsEnd(s, u + 1)) else None
  }

  /** The continuation after the file group: the tail, reporting where the file group ended. */
  function TailNext(s: string): nat -> Option<EnrollHit>
  {
    (e: nat) => if e <= |s| then EnrollTail(s, e) else None
  }

  /** The continuation after an item that ended at `m`'s successor: the rest of the repetition. */
  function RestNext(s: string, m: nat): nat -> Option<EnrollHit>
    requires m <= |s|
    decreases |s| - m, 0
  {
    (e: nat) => if m < e <= |s| then Rest(s, e) else None
  }

  /**
   * The engine on `(?:\s*,\s*LOCAL|URL)*` followed by the tail, at `m`: the
   * greedy repetition first tries one more item (the comma-separated local
   * path, then an adjacent URL, each with its lazy candidates in order), and
   * stops only when no further item leads to a match.
   */
  function Rest(s: string, m: nat): Option<EnrollHit>
    requires m <= |s|
    decreases |s| - m, 1
  {
    var viaLocal := match SepEnd(s, m)
                    case None => None
                    case Some(v) => StartRun(Local, s, v, RestNext(s, m));
    if viaLocal.Some? then Some(viaLocal.value.1)
    else
      var viaUrl := StartRun(Url, s, m, RestNext(s, m));
      if viaUrl.Some? then Some(viaUrl.value.1)
      else EnrollTail(s, m)
  }

  /** The engine at start `i`: a lone local path first, then a URL with its repetition. */
  function EnrollAt(s: string, i: nat): Option<(nat, EnrollHit)>
    requires i <= |s|
  {
    match EnrollLeadEnd(s, i)
    case None => None
    case Some(a) =>
      var viaLocal := StartRun(Local, s, a, TailNext(s));
      if viaLocal.Some? then Some((a, viaLocal.value.1))
      else
        var viaUrl := StartRun(Url, s, a, RestNext(s, a));
        if viaUrl.Some? then Some((a, viaUrl.value.1)) else None
  }

  lemma GroupKwEndSound(s: string, b: nat)
    requires b <= |s| && GroupKwEnd(s, b).Some?
    ensures ToPersonGroup(s, b, GroupKwEnd(s, b).value)
  {
    var w := KwAfter(s, b, "to").value;
    var y := LeadInEnd(s, w).value;
  }

  lemma GroupKwEndComplete(s: string, b: nat, z: nat)
    requires ToPersonGroup(s, b, z)
    ensures b <= |s| && GroupKwEnd(s, b) == Some(z)
  {
    var w: nat :| SpaceThen(s, b, "to", w)
                  && exists y: nat :: LeadIn(s, w, y) && CiAt(s, y, "person") && SpaceThen(s, y + 6, "group", z);
    var y: nat :| LeadIn(s, w, y) && CiAt(s, y, "person") && SpaceThen(s, y + 6, "group", z);
    assert b <= |s| && KwAfter(s, b, "to") == Some(w) by {
      KwAfterComplete(s, b, "to", w);
    }
    assert LeadInEnd(s, w) == Some(y) by {
      KeywordStartsElement(s, y, "person");
      LeadInEndComplete(s, w, y);
    }
    assert KwAfter(s, y + 6, "group") == Some(z) by {
      KwAfterComplete(s, y + 6, "group", z);
    }
    GroupKwEndStep(s, b, w, y, z);
  }

  /** The engine on the group keywords, given where each keyword is found. */
  lemma GroupKwEndStep(s: string, b: nat, w: nat, y: nat, z: nat)
    requires b <= |s| && KwAfter(s, b, "to") == Some(w)
    requires LeadInEnd(s, w) == Some(y) && CiAt(s, y, "person") && KwAfter(s, y + 6, "group") == Some(z)
    ensures GroupKwEnd(s, b) == Some(z)
  {
  }

  /** After a name, `['"]?\s+as` is read exactly: a missing quote leaves whitespace, never a quote, at `g2`. */
  lemma AsAfterComplete(s: string, g2: nat, t: nat)
    requires AsAfter(s, g2, t)
    ensures g2 <= |s| && KwAfter(s, SkipQuote(s, g2), "as") == Some(t)
  {
    var q: nat :| OptQuote(s, g2, q) && SpaceThen(s, q, "as", t);
    if q == g2 {
      assert IsSpace(s[g2]);
    }
    assert SkipQuote(s, g2) == q;
    KwAfterComplete(s, q, "as", t);
  }

  lemma EnrollTailSound(s: string, b: nat)
    requires b <= |s| && EnrollTail(s, b).Some?
    ensures var h := EnrollTail(s, b).value;
      h.fileEnd == b && h.personEnd <= |s|
      && EnrollTailShape(s, b, h.groupStart, h.groupEnd, h.personStart, h.personEnd)
      && (h.personEnd == |s| || !IsNameChar(s[h.personEnd]))
  {
    var z := GroupKwEnd(s, b).value;
    GroupKwEndSound(s, b);
    var (g1, g2) := NameAfter(s, z).value;
    var q := SkipQuote(s, g2);
    var t := KwAfter(s, q, "as").value;
    assert AsAfter(s, g2, t);
  }

  /** The tail engine, given the positions its pieces end at. */
  lemma EnrollTailStep(s: string, b: nat, z: nat, g1: nat, g2: nat, t: nat)
    requires b <= |s| && GroupKwEnd(s, b) == Some(z) && NameAfter(s, z) == Some((g1, g2))
    requires g2 <= |s| && KwAfter(s, SkipQuote(s, g2), "as") == Some(t) && NameAfter(s, t).Some?
    ensures EnrollTail(s, b)
      == Some(EnrollHit(b, g1, g2, NameAfter(s, t).value.0, NameAfter(s, t).value.1))
  {
  }

  /** A name followed by `['"]?\s+as` ends before a character outside `[\w\-]`. */
  lemma AsAfterEndsName(s: string, g2: nat, t: nat)
    requires AsAfter(s, g2, t)
    ensures g2 < |s| && !IsNameChar(s[g2])
  {
    var q: nat :| OptQuote(s, g2, q) && SpaceThen(s, q, "as", t);
    assert IsSpace(s[q]);
    SeparatorEndsName(s[g2]);
  }

  /** The tail is found whenever it is there, with the same group name and a person name at least as long. */
  lemma EnrollTailComplete(s: string, b: nat, g1: nat, g2: nat, p1: nat, p2: nat)
    requires EnrollTailShape(s, b, g1, g2, p1, p2)
    ensures b <= |s| && EnrollTail(s, b).Some?
    ensures var h := EnrollTail(s, b).value;
      h.groupStart == g1 && h.groupEnd == g2 && h.personStart == p1 && p2 <= h.personEnd
  {
    var z: nat :| ToPersonGroup(s, b, z) && QuotedName(s, z, g1, g2)
                  && exists t: nat :: AsAfter(s, g2, t) && QuotedName(s, t, p1, p2);
    var t: nat :| AsAfter(s, g2, t) && QuotedName(s, t, p1, p2);
    EnrollTailFrom(s, b, z, g1, g2, t, p1, p2);
  }

  lemma EnrollTailFrom(s: string, b: nat, z: nat, g1: nat, g2: nat, t: nat, p1: nat, p2: nat)
    requires ToPersonGroup(s, b, z) && QuotedName(s, z, g1, g2)
    requires AsAfter(s, g2, t) && QuotedName(s, t, p1, p2)
    ensures b <= |s| && EnrollTail(s, b).Some?
    ensures var h := EnrollTail(s, b).value;
      h.groupStart == g1 && h.groupEnd == g2 && h.personStart == p1 && p2 <= h.personEnd
  {
    GroupKwEndComplete(s, b, z);
    AsAfterComplete(s, g2, t);
    AsAfterEndsName(s, g2, t);
    NameAfterExact(s, z, g1, g2);
    NameAfterComplete(s, t, p1, p2);
    EnrollTailStep(s, b, z, g1, g2, t);
  }

  lemma FacesEndSound(s: string, x: nat)
    requires x <= |s| && FacesEnd(s, x).Some?
    ensures FacesIn(s, x, FacesEnd(s, x).value)
  {
    var n := if LetterAt(s, x, 's') then x + 1 else x;
    var t := KwAfter(s, n, "in").value;
    assert InGap(s, n, FacesEnd(s, x).value);
  }

  lemma EnrollLeadSound(s: string, i: nat)
    requires i <= |s| && EnrollLeadEnd(s, i).Some?
    ensures EnrollLead(s, i, EnrollLeadEnd(s, i).value)
  {
    var f := LeadInEnd(s, i + 6).value;
    FacesEndSound(s, f + 4);
  }

  /** `\s+in\s+` before a non-space character is read exactly. */
  lemma InGapComplete(s: string, n: nat, a: nat)
    requires InGap(s, n, a) && a < |s| && !IsSpace(s[a])
    ensures n <= |s| && KwAfter(s, n, "in").Some?
    ensures var t := KwAfter(s, n, "in").value; t < a && WsEnd(s, t) == a
  {
    var t: nat :| SpaceThen(s, n, "in", t) && t < a && AllSpaceIn(s, t, a);
    KwAfterComplete(s, n, "in", t);
    WsEndUnique(s, t, a);
  }

  /** The optional `s` of `face[s]?` is forced: a gap starts with whitespace, never with `s`. */
  lemma FacesInForced(s: string, x: nat, a: nat)
    requires FacesIn(s, x, a)
    ensures InGap(s, if LetterAt(s, x, 's') then x + 1 else x, a)
  {
    if InGap(s, x, a) && LetterAt(s, x, 's') {
      var t: nat :| SpaceThen(s, x, "in", t) && t < a && AllSpaceIn(s, t, a);
      assert IsSpace(s[x]);
      LetterIsNotSeparator(s[x], 's');
    }
  }

  lemma FacesEndComplete(s: string, x: nat, a: nat)
    requires FacesIn(s, x, a) && x <= |s| && a < |s| && !IsSpace(s[a])
    ensures FacesEnd(s, x) == Some(a)
  {
    FacesInForced(s, x, a);
    var n := if LetterAt(s, x, 's') then x + 1 else x;
    InGapComplete(s, n, a);
  }

  /** The lead engine, given the element positions of a lead. */
  lemma EnrollLeadFrom(s: string, i: nat, f: nat, a: nat)
    requires Boundary(s, i) && CiAt(s, i, "enroll") && LeadIn(s, i + 6, f)
    requires CiAt(s, f, "face") && FacesIn(s, f + 4, a) && a < |s| && !IsSpace(s[a])
    ensures i <= |s| && EnrollLeadEnd(s, i) == Some(a)
  {
    assert LeadInEnd(s, i + 6) == Some(f) by {
      KeywordStartsElement(s, f, "face");
      LeadInEndComplete(s, i + 6, f);
    }
    assert FacesEnd(s, f + 4) == Some(a) by {
      FacesEndComplete(s, f + 4, a);
    }
    EnrollLeadEndStep(s, i, f, a);
  }

  /** One step of the lead engine: after `enroll`, the lead-in and `face`, the rest is `FacesEnd`. */
  lemma EnrollLeadEndStep(s: string, i: nat, f: nat, a: nat)
    requires i + 6 <= |s| && Boundary(s, i) && CiAt(s, i, "enroll")
    requires LeadInEnd(s, i + 6) == Some(f) && CiAt(s, f, "face")
    requires f + 4 <= |s| && FacesEnd(s, f + 4) == Some(a)
    ensures EnrollLeadEnd(s, i) == Some(a)
  {
  }

  lemma EnrollLeadComplete(s: string, i: nat, a: nat)
    requires EnrollLead(s, i, a) && a < |s| && !IsSpace(s[a])
    ensures i <= |s| && EnrollLeadEnd(s, i) == Some(a)
  {
    var f: nat :| LeadIn(s, i + 6, f) && CiAt(s, f, "face") && FacesIn(s, f + 4, a);
    EnrollLeadFrom(s, i, f, a);
  }

  lemma SepEndSound(s: string, m: nat)
    requires m <= |s| && SepEnd(s, m).Some?
    ensures SepComma(s, m, SepEnd(s, m).value)
  {
    var u := WsEnd(s, m);
    assert m <= u < SepEnd(s, m).value && AllSpaceIn(s, m, u) && AllSpaceIn(s, u + 1, SepEnd(s, m).value) && s[u] == ',';
  }

  lemma SepEndComplete(s: string, m: nat, v: nat)
    requires SepComma(s, m, v) && v < |s| && !IsSpace(s[v])
    ensures m <= |s| && SepEnd(s, m) == Some(v)
  {
    var u: nat :| m <= u < v && AllSpaceIn(s, m, u) && AllSpaceIn(s, u + 1, v) && s[u] == ',';
    WsEndUnique(s, m, u);
    WsEndUnique(s, u + 1, v);
  }

  /** What `Rest` reports: a repetition of items from `m`, then the tail. */
  lemma {:induction false} RestSound(s: string, m: nat)
    requires m <= |s| && Rest(s, m).Some?
    ensures var h := Rest(s, m).value;
      m <= h.fileEnd <= |s| && Items(s, m, h.fileEnd) && EnrollTail(s, h.fileEnd) == Some(h)
    decreases |s| - m
  {
    var h := Rest(s, m).value;
    var next := RestNext(s, m);
    var viaLocal := match SepEnd(s, m)
                    case None => None
                    case Some(v) => StartRun(Local, s, v, next);
    if viaLocal.Some? {
      var v := SepEnd(s, m).value;
      StartRunFound(Local, s, v, next);
      var e := viaLocal.value.0;
      SpanBounds(Local, s, v, e);
      assert Rest(s, e) == Some(h);
      RestSound(s, e);
      SepEndSound(s, m);
      assert Item(s, m, e);
    } else {
      var viaUrl := StartRun(Url, s, m, next);
      if viaUrl.Some? {
        StartRunFound(Url, s, m, next);
        var e := viaUrl.value.0;
        SpanBounds(Url, s, m, e);
        assert Rest(s, e) == Some(h);
        RestSound(s, e);
        assert Item(s, m, e);
      } else {
        assert EnrollTail(s, m) == Some(h);
      }
    }
  }

  /** `Rest` succeeds whenever some repetition of items from `m` is followed by the tail. */
  lemma {:induction false} RestComplete(s: string, m: nat, b: nat)
    requires m <= b <= |s| && Items(s, m, b) && EnrollTail(s, b).Some?
    ensures Rest(s, m).Some?
    decreases b - m
  {
    if m < b {
      var m2: nat :| m < m2 <= b && Item(s, m, m2) && Items(s, m2, b);
      RestComplete(s, m2, b);
      assert RestNext(s, m)(m2).Some?;
      if v: nat :| SepComma(s, m, v) && Span(Local, s, v, m2) {
        SpanStartsElement(Local, s, v, m2);
        SepEndComplete(s, m, v);
        StartRunSpec(Local, s, v, RestNext(s, m));
      } else {
        StartRunSpec(Url, s, m, RestNext(s, m));
      }
    }
  }

  /** What the engine at `i` reports is a match of the whole pattern, with every captured slice inside the prompt. */
  lemma EnrollAtSound(s: string, i: nat)
    requires i <= |s| && EnrollAt(s, i).Some?
    ensures var (a, h) := EnrollAt(s, i).value;
      EnrollShape(s, i, a, h) && a < h.fileEnd <= |s|
      && h.groupStart < h.groupEnd <= |s| && h.personStart < h.personEnd <= |s|
      && (h.personEnd == |s| || !IsNameChar(s[h.personEnd]))
  {
    var a := EnrollLeadEnd(s, i).value;
    EnrollLeadSound(s, i);
    var viaLocal := StartRun(Local, s, a, TailNext(s));
    if viaLocal.Some? {
      EnrollAtLocalSound(s, a);
    } else {
      EnrollAtUrlSound(s, a);
    }
  }

  /** A lone local path followed by the tail. */
  lemma EnrollAtLocalSound(s: string, a: nat)
    requires a <= |s| && StartRun(Local, s, a, TailNext(s)).Some?
    ensures var h := StartRun(Local, s, a, TailNext(s)).value.1;
      FileGroup(s, a, h.fileEnd) && a < h.fileEnd <= |s|
      && EnrollTailShape(s, h.fileEnd, h.groupStart, h.groupEnd, h.personStart, h.personEnd)
      && h.groupStart < h.groupEnd <= |s| && h.personStart < h.personEnd <= |s|
      && (h.personEnd == |s| || !IsNameChar(s[h.personEnd]))
  {
    var r := StartRun(Local, s, a, TailNext(s)).value;
    StartRunFound(Local, s, a, TailNext(s));
    SpanBounds(Local, s, a, r.0);
    assert EnrollTail(s, r.0) == Some(r.1);
    EnrollTailSound(s, r.0);
    EnrollTailBounds(s, r.0, r.1);
  }

  /** A URL followed by the repetition and the tail. */
  lemma EnrollAtUrlSound(s: string, a: nat)
    requires a <= |s| && StartRun(Url, s, a, RestNext(s, a)).Some?
    ensures var h := StartRun(Url, s, a, RestNext(s, a)).value.1;
      FileGroup(s, a, h.fileEnd) && a < h.fileEnd <= |s|
      && EnrollTailShape(s, h.fileEnd, h.groupStart, h.groupEnd, h.personStart, h.personEnd)
      && h.groupStart < h.groupEnd <= |s| && h.personStart < h.personEnd <= |s|
      && (h.personEnd == |s| || !IsNameChar(s[h.personEnd]))
  {
    var r := StartRun(Url, s, a, RestNext(s, a)).value;
    StartRunFound(Url, s, a, RestNext(s, a));
    var m := r.0;
    SpanBounds(Url, s, a, m);
    assert Rest(s, m) == Some(r.1);
    RestSound(s, m);
    EnrollTailSound(s, r.1.fileEnd);
    EnrollTailBounds(s, r.1.fileEnd, r.1);
  }

  /** The names the tail captures are non-empty slices of the prompt. */
  lemma EnrollTailBounds(s: string, b: nat, h: EnrollHit)
    requires EnrollTailShape(s, b, h.groupStart, h.groupEnd, h.personStart, h.personEnd)
    ensures h.groupStart < h.groupEnd <= |s| && h.personStart < h.personEnd <= |s|
    ensures forall k :: h.groupStart <= k < h.groupEnd ==> IsNameChar(s[k])
    ensures forall k :: h.personStart <= k < h.personEnd ==> IsNameChar(s[k])
  {
    var z: nat :| ToPersonGroup(s, b, z) && QuotedName(s, z, h.groupStart, h.groupEnd)
                  && exists t: nat :: AsAfter(s, h.groupEnd, t) && QuotedName(s, t, h.personStart, h.personEnd);
    var t: nat :| AsAfter(s, h.groupEnd, t) && QuotedName(s, t, h.personStart, h.personEnd);
  }

  /** The lead's file group starts with an image reference, hence with neither whitespace nor `the `. */
  lemma FileGroupStartsElement(s: string, a: nat, b: nat)
    requires FileGroup(s, a, b)
    ensures StartsElement(s, a)
  {
    if Span(Local, s, a, b) {
      SpanStartsElement(Local, s, a, b);
    } else {
      var m: nat :| Span(Url, s, a, m) && Items(s, m, b);
      SpanStartsElement(Url, s, a, m);
    }
  }

  /** Whenever the pattern can match from `i` (with the file group at `a`), the engine matches there, with that `a`. */
  lemma EnrollAtComplete(s: string, i: nat, a: nat, h: EnrollHit)
    requires EnrollShape(s, i, a, h)
    ensures i <= |s| && EnrollAt(s, i).Some? && EnrollAt(s, i).value.0 == a
  {
    FileGroupStartsElement(s, a, h.fileEnd);
    EnrollLeadComplete(s, i, a);
    EnrollTailComplete(s, h.fileEnd, h.groupStart, h.groupEnd, h.personStart, h.personEnd);
    if Span(Local, s, a, h.fileEnd) {
      assert TailNext(s)(h.fileEnd).Some?;
      StartRunSpec(Local, s, a, TailNext(s));
    } else {
      var m: nat :| Span(Url, s, a, m) && Items(s, m, h.fileEnd);
      EnrollUrlComplete(s, a, m, h.fileEnd);
    }
  }

  /** A URL at `a` followed by a repetition and the tail: the engine's first alternative or its second succeeds. */
  lemma EnrollUrlComplete(s: string, a: nat, m: nat, b: nat)
    requires Span(Url, s, a, m) && Items(s, m, b) && b <= |s| && EnrollTail(s, b).Some?
    ensures a <= |s|
    ensures StartRun(Local, s, a, TailNext(s)).Some? || StartRun(Url, s, a, RestNext(s, a)).Some?
  {
    SpanBounds(Url, s, a, m);
    RestComplete(s, m, b);
    assert RestNext(s, a)(m).Some?;
    StartRunSpec(Url, s, a, RestNext(s, a));
  }

  /** The engine's match of the enroll pattern at each start; none starts past the end. */
  function EnrollStarts(s: string): nat -> Option<(nat, EnrollHit)>
  {
    (i: nat) => if i <= |s| then EnrollAt(s, i) else None
  }

  /** `_ENROLL_RE.search`: the first start, left to right, at which the engine matches. */
  function EnrollSearch(s: string, from: nat): Option<(nat, (nat, EnrollHit))>
  {
    FirstFrom(EnrollStarts(s), from, |s| + 1)
  }

  /** The pattern matches with its `\b` at `i`. */
  ghost predicate EnrollMatchAt(s: string, i: nat)
  {
    exists a: nat, h: EnrollHit :: EnrollShape(s, i, a, h)
  }

  lemma NoEnrollShapeAt(s: string, i: nat)
    requires i <= |s| && EnrollAt(s, i).None?
    ensures !EnrollMatchAt(s, i)
  {
    if EnrollMatchAt(s, i) {
      var a: nat, h: EnrollHit :| EnrollShape(s, i, a, h);
      EnrollAtComplete(s, i, a, h);
    }
  }

  lemma NoEnrollShapePastEnd(s: string, i: nat)
    requires i > |s|
    ensures !EnrollMatchAt(s, i)
  {
  }

  lemma EnrollSearchSpec(s: string, from: nat)
    requires from <= |s|
    ensures EnrollSearch(s, from).Some? ==>
      var (i, t) := EnrollSearch(s, from).value;
      from <= i <= |s| && EnrollAt(s, i) == Some(t)
      && forall i': nat :: from <= i' < i ==> !EnrollMatchAt(s, i')
    ensures EnrollSearch(s, from).None? ==>
      forall i': nat :: from <= i' ==> !EnrollMatchAt(s, i')
  {
    var at := EnrollStarts(s);
    FirstFromSpec(at, from, |s| + 1);
    forall i': nat | at(i').None?
      ensures !EnrollMatchAt(s, i')
    {
      if i' > |s| {
        NoEnrollShapePastEnd(s, i');
      } else {
        NoEnrollShapeAt(s, i');
      }
    }
  }

  /** `[f.strip() for f in files]`. */
  function StripEach(files: seq<string>): (r: seq<string>)
    ensures |r| == |files| && forall k :: 0 <= k < |r| ==> r[k] == Strip(files[k])
  {
    if files == [] then [] else [Strip(files[0])] + StripEach(files[1..])
  }

  /** `all(re.fullmatch(_URL_RE, f, re.IGNORECASE) for f in files)`. */
  predicate AllUrls(files: seq<string>)
  {
    forall k :: 0 <= k < |files| ==> IsUrl(files[k])
  }

  /** The file list: the file group split at each comma (with the whitespace after it), every piece stripped. */
  function FileList(fileGroup: string): seq<string>
  {
    StripEach(SplitComma(fileGroup))
  }

  /** `parse_prompt_for_enroll`. */
  function ParseEnroll(prompt: string): Result<ParsedEnroll, string>
  {
    var p := Strip(prompt);
    match EnrollSearch(p, 0)
    case None => Err(EnrollUnrecognized)
    case Some((i, t)) =>
      var (a, h) := t;
      EnrollSearchSpec(p, 0);
      EnrollAtSound(p, i);
      var files := FileList(p[a..h.fileEnd]);
      Ok(ParsedEnroll(files, p[h.personStart..h.personEnd], p[h.groupStart..h.groupEnd], AllUrls(files), true))
  }

  /** An enroll prompt is rejected exactly when the pattern matches nowhere in it. */
  lemma EnrollRejects(prompt: string)
    ensures var p := Strip(prompt);
      ParseEnroll(prompt).Err? <==> forall i: nat :: !EnrollMatchAt(p, i)
    ensures ParseEnroll(prompt).Err? ==> ParseEnroll(prompt).error == EnrollUnrecognized
  {
    var p := Strip(prompt);
    EnrollSearchSpec(p, 0);
    if EnrollSearch(p, 0).Some? {
      var (i, t) := EnrollSearch(p, 0).value;
      EnrollAtSound(p, i);
      assert EnrollMatchAt(p, i);
    }
  }

  /**
   * `r` is what the prompt `p` yields from the leftmost match, at `i`, of
   * the enroll pattern, whose file group is `p[a..h.fileEnd]`: the file list
   * is that group split and stripped, the group and person names are the
   * captured slices (the person name as long as `[\w\-]+` reaches),
   * `is_url` says every listed file is a URL in full, and quality checking
   * is requested.
   */
  ghost predicate EnrollCaptured(p: string, r: ParsedEnroll, i: nat, a: nat, h: EnrollHit)
  {
    EnrollShape(p, i, a, h) && a < h.fileEnd <= |p| && h.personEnd <= |p| && h.groupEnd <= |p|
    && h.groupStart <= h.groupEnd && h.personStart <= h.personEnd
    && r.filePathList == FileList(p[a..h.fileEnd])
    && r.groupUuid == p[h.groupStart..h.groupEnd]
    && r.personName == p[h.personStart..h.personEnd]
    && (h.personEnd == |p| || !IsNameChar(p[h.personEnd]))
    && r.isUrl == AllUrls(r.filePathList)
    && r.checkQuality
    && (forall i': nat :: i' < i ==> !EnrollMatchAt(p, i'))
  }

  /** An accepted enroll prompt is captured from the leftmost match of the pattern. */
  lemma EnrollAccepts(prompt: string)
    requires ParseEnroll(prompt).Ok?
    ensures exists i: nat, a: nat, h: EnrollHit :: EnrollCaptured(Strip(prompt), ParseEnroll(prompt).value, i, a, h)
  {
    var p := Strip(prompt);
    var (i, t) := EnrollSearch(p, 0).value;
    var (a, h) := t;
    EnrollSearchSpec(p, 0);
    EnrollAtSound(p, i);
    assert EnrollCaptured(p, ParseEnroll(prompt).value, i, a, h);
  }

  /** Both captured names are non-empty runs of `[\w\-]`, and the file list is never empty. */
  lemma EnrollNames(prompt: string)
    requires ParseEnroll(prompt).Ok?
    ensures var r := ParseEnroll(prompt).value;
      IsName(r.groupUuid) && IsName(r.personName) && |r.filePathList| >= 1
  {
    var p := Strip(prompt);
    var r := ParseEnroll(prompt).value;
    EnrollAccepts(prompt);
    var i: nat, a: nat, h: EnrollHit :| EnrollCaptured(p, r, i, a, h);
    CapturedNames(p, r, a, h);
  }

  lemma CapturedNames(p: string, r: ParsedEnroll, a: nat, h: EnrollHit)
    requires EnrollTailShape(p, h.fileEnd, h.groupStart, h.groupEnd, h.personStart, h.personEnd)
    requires a <= h.fileEnd <= |p| && h.groupStart <= h.groupEnd <= |p| && h.personStart <= h.personEnd <= |p|
    requires r.filePathList == FileList(p[a..h.fileEnd])
    requires r.groupUuid == p[h.groupStart..h.groupEnd] && r.personName == p[h.personStart..h.personEnd]
    ensures IsName(r.groupUuid) && IsName(r.personName) && |r.filePathList| >= 1
  {
    EnrollTailBounds(p, h.fileEnd, h);
    NameSlice(p, h.groupStart, h.groupEnd);
    NameSlice(p, h.personStart, h.personEnd);
    SplitCommaPieces(p[a..h.fileEnd]);
  }

  /** A non-empty run of `[\w\-]`. */
  predicate IsName(t: string)
  {
    |t| > 0 && forall k :: 0 <= k < |t| ==> IsNameChar(t[k])
  }

  lemma NameSlice(s: string, x: nat, y: nat)
    requires x < y <= |s| && forall k :: x <= k < y ==> IsNameChar(s[k])
    ensures IsName(s[x..y])
  {
    forall k | 0 <= k < y - x ensures IsNameChar(s[x..y][k]) {
      assert s[x..y][k] == s[x + k];
    }
  }

  /** An extension letter is not whitespace. */
  lemma ExtCharNotSpace(s: string, x: nat, e: nat, k: nat)
    requires IsExtSpan(s, x, e) && x <= k < e
    ensures !IsSpace(s[k])
  {
  }

  /** A local path never holds whitespace. */
  lemma LocalSpanHasNoSpace(s: string, a: nat, e: nat)
    requires Span(Local, s, a, e)
    ensures forall k :: a <= k < e ==> !IsSpace(s[k])
  {
    var d := SpanDot(Local, s, a, e);
    forall k | a <= k < e ensures !IsSpace(s[k]) {
      if k < d {
        assert InRun(Local, s[k]);
      } else if k > d {
        ExtCharNotSpace(s, d + 1, e, k);
      }
    }
  }

  /**
   * By the precedence of `|` in the file group, a group that does not open
   * with a URL is one local path and holds no whitespace: a list such as
   * `img1.jpg, img2.jpg` is only accepted after a leading URL.
   */
  lemma EnrollLocalGroupHasNoSpace(s: string, i: nat, a: nat, h: EnrollHit)
    requires EnrollShape(s, i, a, h) && forall m: nat :: !Span(Url, s, a, m)
    ensures forall k :: a <= k < h.fileEnd ==> !IsSpace(s[k])
  {
    assert Span(Local, s, a, h.fileEnd);
    LocalSpanHasNoSpace(s, a, h.fileEnd);
  }

  /**
   * The file list undoes `", ".join(paths)` for paths that are already
   * stripped and hold no comma.
   */
  lemma FileListJoin(paths: seq<string>)
    requires |paths| >= 1 && PiecesWithoutComma(paths)
    requires forall k :: 0 <= k < |paths| ==> Strip(paths[k]) == paths[k]
    ensures FileList(Join(paths, ", ")) == paths
  {
    forall k | 1 <= k < |paths| ensures paths[k] == [] || !IsSpace(paths[k][0]) {
      StripIsSlice(paths[k]);
    }
    SplitJoin(paths);
  }
}
