/**
 * The compare tool `compare_source_image_to_target_image` of
 * src/tools/CompareImages.py: detect the faces of both images (returning
 * early when an image is missing or has no face), then compare them in one
 * of three modes and close with a line naming the mode.
 *
 * The face service is a record of oracles. A similarity or verification
 * answer carries its confidence as text together with the verdict
 * `confidence >= identical_threshold`, computed by the service side of the
 * model: the float comparison itself is not modelled.
 */
module CompareFaces {
  import opened Wrappers
  import opened Text
  import opened FaceModel

  /** The tool's arguments, without the float threshold (see the module comment). */
  datatype CompareArgs = CompareArgs(
    sourceImage: string,
    targetImage: string,
    comparisonMode: string,
    isSourceImageUrl: bool,
    isTargetImageUrl: bool)

  /** How the requested mode is routed: the two named modes, and every other string. */
  datatype Mode = Exhaustive | MostSimilar | LargestFace

  /** The routing of `comparison_mode`: any string but "exhaustive" and "most_similar" means largest face. */
  function ModeOf(mode: string): Mode
  {
    if mode == "exhaustive" then Exhaustive
    else if mode == "most_similar" then MostSimilar
    else LargestFace
  }

  /** The body of one `find_similar` call. */
  datatype SimilarRequest = SimilarRequest(faceId: string, faceIds: seq<string>, maxNumOfCandidatesReturned: nat, mode: string)

  /** One face `find_similar` answers: its id, its confidence as printed, and whether it reaches the threshold. */
  datatype Similar = Similar(faceId: string, confidenceText: string, identical: bool)

  /** The answer of `verify_face_to_face`, in the same form. */
  datatype Verdict = Verdict(confidenceText: string, identical: bool)

  /** The service as the tool sees it: `os.path.exists` (a path it accepts also opens) and the three face calls. */
  datatype FaceService = FaceService(
    fileExists: string -> bool,
    detect: ImageSource -> seq<Face>,
    findSimilar: SimilarRequest -> seq<Similar>,
    verify: (string, string) -> Verdict)

  /** The service calls the tool makes. */
  datatype Event =
    | DetectFaces(source: ImageSource)
    | FindSimilar(request: SimilarRequest)
    | VerifyFaces(faceId1: string, faceId2: string)

  /** The lines of a comparison report, by kind; `Render` gives their text. */
  datatype Line =
    | ExhaustiveHeader(sourceImage: string, targetImage: string)
    | ExhaustiveMatch(source: Face, similar: Similar, bbox: string)
    | MostSimilarHeader(sourceImage: string, targetImage: string)
    | MostSimilarMatch(source: Face, similar: Similar, bbox: string)
    | NoSimilarFace(source: Face)
    | LargestHeader
    | LargestChoice(image: string, count: nat, face: Face)
    | Verified(source: Face, target: Face, verdict: Verdict)
    | Closing(mode: string)

  /** What the tool returns: an early message, or the report's lines (joined with the separator). */
  datatype Reply = Early(text: string) | Report(lines: seq<Line>)

  /** Python's `str` of a bool. */
  function PyBool(b: bool): string
  {
    if b then "True" else "False"
  }

  function Render(l: Line): string
  {
    match l
    case ExhaustiveHeader(s, t) =>
      "Exhaustive comparison is requested. Comparing all detected faces in the image file: " + s
      + " with all detected faces in the image file: " + t
    case ExhaustiveMatch(f, sim, bbox) =>
      "Face ID: " + f.faceId + " (bounding box: " + f.rectText + "), Face ID: " + sim.faceId
      + " (bounding box: " + bbox + "), Verification result: " + PyBool(sim.identical)
      + ", Confidence: " + sim.confidenceText
    case MostSimilarHeader(s, t) =>
      "Most similar comparison is requested. For each face in the image file: " + s
      + ", the most similar face from the image file: " + t + " will be determined."
    case MostSimilarMatch(f, sim, bbox) =>
      "Face ID: " + f.faceId + " (bounding box: " + f.rectText + "), with most similar Face ID: " + sim.faceId
      + " (bounding box: " + bbox + "), Verification result: " + PyBool(sim.identical)
      + ", Confidence: " + sim.confidenceText
    case NoSimilarFace(f) =>
      "Face ID: " + f.faceId + " (bounding box: " + f.rectText + ") did not find a similar face in another image."
    case LargestHeader =>
      "Largest face comparison is requested. Only comparing the largest detected face in each image."
    case LargestChoice(image, n, f) =>
      "Image file: " + image + " contains " + NatToString(n) + " face(s). Using the largest face with Face ID: "
      + f.faceId + " (bounding box: " + f.rectText + ") for comparison."
    case Verified(s, t, v) =>
      "Face ID: " + s.faceId + " (bounding box: " + s.rectText + "), Face ID: " + t.faceId
      + " (bounding box: " + t.rectText + "), Verification result: " + PyBool(v.identical)
      + ", Confidence: " + v.confidenceText
    case Closing(mode) =>
      "The current comparison mode is: " + mode
      + ". This function supports three comparison modes: exhaustive, most_similar, and largest_face."
      + " You can choose other modes if you want to have a different comparison behavior."
  }

  /** The rendered lines, in order. */
  function RenderAll(lines: seq<Line>): seq<string>
  {
    seq(|lines|, k requires 0 <= k < |lines| => Render(lines[k]))
  }

  /** The text the tool returns. */
  function ReplyText(r: Reply): string
  {
    match r
    case Early(text) => text
    case Report(lines) => Join(RenderAll(lines), Separator)
  }

  function MissingText(image: string): string
  {
    "Image file: " + image + " does not exist."
  }

  function NoFacesText(image: string): string
  {
    "Image file: " + image + " does not contain any detectable faces. No comparison can be performed."
  }

  // ---------------------------------------------------------------- exhaustive mode

  /** The `find_similar` request of exhaustive mode for one source face. */
  function ExhaustiveRequest(source: Face, targets: seq<Face>): SimilarRequest
  {
    SimilarRequest(source.faceId, FaceIds(targets), |targets|, "matchFace")
  }

  /** The lines for the similar faces answered for one source face, in answer order. */
  function MatchLines(source: Face, sims: seq<Similar>, targets: seq<Face>): (r: seq<Line>)
    ensures |r| == |sims|
    ensures forall k :: 0 <= k < |sims| ==> r[k] == ExhaustiveMatch(source, sims[k], BboxText(targets, sims[k].faceId))
  {
    if sims == [] then []
    else MatchLines(source, sims[..|sims| - 1], targets)
         + [ExhaustiveMatch(source, sims[|sims| - 1], BboxText(targets, sims[|sims| - 1].faceId))]
  }

  /** The lines of exhaustive mode for the source faces, after the header. */
  function ExhaustiveLines(sources: seq<Face>, targets: seq<Face>, svc: FaceService): seq<Line>
  {
    if sources == [] then []
    else
      var s := sources[|sources| - 1];
      ExhaustiveLines(sources[..|sources| - 1], targets, svc)
      + MatchLines(s, svc.findSimilar(ExhaustiveRequest(s, targets)), targets)
  }

  /** The calls of exhaustive mode: one `find_similar` per source face. */
  function ExhaustiveEvents(sources: seq<Face>, targets: seq<Face>): (r: seq<Event>)
    ensures |r| == |sources|
    ensures forall k :: 0 <= k < |sources| ==> r[k] == FindSimilar(ExhaustiveRequest(sources[k], targets))
  {
    if sources == [] then []
    else ExhaustiveEvents(sources[..|sources| - 1], targets) + [FindSimilar(ExhaustiveRequest(sources[|sources| - 1], targets))]
  }

  // ---------------------------------------------------------------- most-similar mode

  /** The `find_similar` request of most-similar mode for one source face. */
  function MostSimilarRequest(source: Face, targets: seq<Face>): SimilarRequest
  {
    SimilarRequest(source.faceId, FaceIds(targets), 1, "matchPerson")
  }

  /** The one line for a source face: its first answer, or that it found none. */
  function MostSimilarLine(source: Face, sims: seq<Similar>, targets: seq<Face>): Line
  {
    if |sims| > 0 then MostSimilarMatch(source, sims[0], BboxText(targets, sims[0].faceId))
    else NoSimilarFace(source)
  }

  function MostSimilarLines(sources: seq<Face>, targets: seq<Face>, svc: FaceService): (r: seq<Line>)
    ensures |r| == |sources|
    ensures forall k :: 0 <= k < |sources| ==>
              r[k] == MostSimilarLine(sources[k], svc.findSimilar(MostSimilarRequest(sources[k], targets)), targets)
  {
    if sources == [] then []
    else
      var s := sources[|sources| - 1];
      MostSimilarLines(sources[..|sources| - 1], targets, svc)
      + [MostSimilarLine(s, svc.findSimilar(MostSimilarRequest(s, targets)), targets)]
  }

  function MostSimilarEvents(sources: seq<Face>, targets: seq<Face>): (r: seq<Event>)
    ensures |r| == |sources|
    ensures forall k :: 0 <= k < |sources| ==> r[k] == FindSimilar(MostSimilarRequest(sources[k], targets))
  {
    if sources == [] then []
    else MostSimilarEvents(sources[..|sources| - 1], targets) + [FindSimilar(MostSimilarRequest(sources[|sources| - 1], targets))]
  }

  // ---------------------------------------------------------------- the whole tool

  /** The faces detected in an image, or `None` for a local file that does not exist. */
  function Detected(image: string, isUrl: bool, svc: FaceService): Option<seq<Face>>
  {
    if !isUrl && !svc.fileExists(image) then None else Some(svc.detect(SourceOf(image, isUrl)))
  }

  /** The report lines and calls once both images have faces. */
  function Comparison(args: CompareArgs, sources: seq<Face>, targets: seq<Face>, svc: FaceService): (seq<Line>, seq<Event>)
    requires |sources| > 0 && |targets| > 0
  {
    match ModeOf(args.comparisonMode)
    case Exhaustive =>
      ([ExhaustiveHeader(args.sourceImage, args.targetImage)] + ExhaustiveLines(sources, targets, svc),
       ExhaustiveEvents(sources, targets))
    case MostSimilar =>
      ([MostSimilarHeader(args.sourceImage, args.targetImage)] + MostSimilarLines(sources, targets, svc),
       MostSimilarEvents(sources, targets))
    case LargestFace =>
      var s := sources[LargestFaceIndex(sources)];
      var t := targets[LargestFaceIndex(targets)];
      ([LargestHeader, LargestChoice(args.sourceImage, |sources|, s), LargestChoice(args.targetImage, |targets|, t),
        Verified(s, t, svc.verify(s.faceId, t.faceId))],
       [VerifyFaces(s.faceId, t.faceId)])
  }

  /** The tool: what it returns and the calls it makes. */
  function Compare(args: CompareArgs, svc: FaceService): (Reply, seq<Event>)
  {
    match Detected(args.sourceImage, args.isSourceImageUrl, svc)
    case None => (Early(MissingText(args.sourceImage)), [])
    case Some(sources) =>
      var detectSource := [DetectFaces(SourceOf(args.sourceImage, args.isSourceImageUrl))];
      if |sources| < 1 then (Early(NoFacesText(args.sourceImage)), detectSource)
      else
        match Detected(args.targetImage, args.isTargetImageUrl, svc)
        case None => (Early(MissingText(args.targetImage)), detectSource)
        case Some(targets) =>
          var detectBoth := detectSource + [DetectFaces(SourceOf(args.targetImage, args.isTargetImageUrl))];
          if |targets| < 1 then (Early(NoFacesText(args.targetImage)), detectBoth)
          else
            var (lines, events) := Comparison(args, sources, targets, svc);
            (Report(lines + [Closing(args.comparisonMode)]), detectBoth + events)
  }

  // ---------------------------------------------------------------- the methods

  /** The inner loop of exhaustive mode: one line per answered face. */
  method ReportMatches(s: Face, sims: seq<Similar>, targets: seq<Face>) returns (matches: seq<Line>)
    ensures matches == MatchLines(s, sims, targets)
  {
    matches := [];
    var j := 0;
    while j < |sims|
      invariant j <= |sims|
      invariant matches == MatchLines(s, sims[..j], targets)
    {
      assert sims[..j + 1][..j] == sims[..j];
      matches := matches + [ExhaustiveMatch(s, sims[j], BboxText(targets, sims[j].faceId))];
      j := j + 1;
    }
    assert sims[..j] == sims;
  }

  /** Taking one source face more adds its request and the lines of its answer. */
  lemma ExhaustiveNext(sources: seq<Face>, targets: seq<Face>, svc: FaceService, i: nat)
    requires i < |sources|
    ensures ExhaustiveLines(sources[..i + 1], targets, svc)
            == ExhaustiveLines(sources[..i], targets, svc)
               + MatchLines(sources[i], svc.findSimilar(ExhaustiveRequest(sources[i], targets)), targets)
    ensures ExhaustiveEvents(sources[..i + 1], targets)
            == ExhaustiveEvents(sources[..i], targets) + [FindSimilar(ExhaustiveRequest(sources[i], targets))]
  {
    assert sources[..i + 1][..i] == sources[..i];
  }

  /** The nested loops of exhaustive mode. */
  method CompareExhaustive(sources: seq<Face>, targets: seq<Face>, svc: FaceService)
    returns (lines: seq<Line>, events: seq<Event>)
    ensures lines == ExhaustiveLines(sources, targets, svc) && events == ExhaustiveEvents(sources, targets)
  {
    lines, events := [], [];
    var i := 0;
    while i < |sources|
      invariant i <= |sources|
      invariant lines == ExhaustiveLines(sources[..i], targets, svc)
      invariant events == ExhaustiveEvents(sources[..i], targets)
    {
      var s := sources[i];
      var request := ExhaustiveRequest(s, targets);
      var sims := svc.findSimilar(request);
      events := events + [FindSimilar(request)];
      var matches := ReportMatches(s, sims, targets);
      ExhaustiveNext(sources, targets, svc, i);
      lines := lines + matches;
      i := i + 1;
    }
    assert sources[..i] == sources;
  }

  /** The loop of most-similar mode. */
  method CompareMostSimilar(sources: seq<Face>, targets: seq<Face>, svc: FaceService)
    returns (lines: seq<Line>, events: seq<Event>)
    ensures lines == MostSimilarLines(sources, targets, svc) && events == MostSimilarEvents(sources, targets)
  {
    lines, events := [], [];
    var i := 0;
    while i < |sources|
      invariant i <= |sources|
      invariant lines == MostSimilarLines(sources[..i], targets, svc)
      invariant events == MostSimilarEvents(sources[..i], targets)
    {
      var s := sources[i];
      var request := MostSimilarRequest(s, targets);
      var sims := svc.findSimilar(request);
      events := events + [FindSimilar(request)];
      if |sims| > 0 {
        lines := lines + [MostSimilarMatch(s, sims[0], BboxText(targets, sims[0].faceId))];
      } else {
        lines := lines + [NoSimilarFace(s)];
      }
      assert sources[..i + 1][..i] == sources[..i];
      i := i + 1;
    }
    assert sources[..i] == sources;
  }

  /** The mode routing, once both images have faces: the report's lines before the closing one, and the calls. */
  method CompareDetected(args: CompareArgs, sources: seq<Face>, targets: seq<Face>, svc: FaceService)
    returns (lines: seq<Line>, calls: seq<Event>)
    requires |sources| > 0 && |targets| > 0
    ensures (lines, calls) == Comparison(args, sources, targets, svc)
  {
    var mode := ModeOf(args.comparisonMode);
    if mode == Exhaustive {
      lines, calls := CompareExhaustive(sources, targets, svc);
      lines := [ExhaustiveHeader(args.sourceImage, args.targetImage)] + lines;
    } else if mode == MostSimilar {
      lines, calls := CompareMostSimilar(sources, targets, svc);
      lines := [MostSimilarHeader(args.sourceImage, args.targetImage)] + lines;
    } else {
      var s := sources[LargestFaceIndex(sources)];
      var t := targets[LargestFaceIndex(targets)];
      var verdict := svc.verify(s.faceId, t.faceId);
      calls := [VerifyFaces(s.faceId, t.faceId)];
      lines := [LargestHeader, LargestChoice(args.sourceImage, |sources|, s),
                LargestChoice(args.targetImage, |targets|, t), Verified(s, t, verdict)];
    }
  }

  /** The tool up to its answer: the reply before it is rendered, and the calls. */
  method CompareReply(args: CompareArgs, svc: FaceService) returns (reply: Reply, events: seq<Event>)
    ensures (reply, events) == Compare(args, svc)
  {
    if !args.isSourceImageUrl && !svc.fileExists(args.sourceImage) {
      return Early(MissingText(args.sourceImage)), [];
    }
    var sourceSrc := SourceOf(args.sourceImage, args.isSourceImageUrl);
    var sources := svc.detect(sourceSrc);
    events := [DetectFaces(sourceSrc)];
    if |sources| < 1 {
      return Early(NoFacesText(args.sourceImage)), events;
    }
    if !args.isTargetImageUrl && !svc.fileExists(args.targetImage) {
      return Early(MissingText(args.targetImage)), events;
    }
    var targetSrc := SourceOf(args.targetImage, args.isTargetImageUrl);
    var targets := svc.detect(targetSrc);
    events := events + [DetectFaces(targetSrc)];
    if |targets| < 1 {
      return Early(NoFacesText(args.targetImage)), events;
    }
    var lines, calls := CompareDetected(args, sources, targets, svc);
    events := events + calls;
    reply := Report(lines + [Closing(args.comparisonMode)]);
  }

  /** `compare_source_image_to_target_image`: the returned text and the calls made. */
  method CompareImages(args: CompareArgs, svc: FaceService) returns (out: string, events: seq<Event>)
    ensures out == ReplyText(Compare(args, svc).0) && events == Compare(args, svc).1
  {
    var reply;
    reply, events := CompareReply(args, svc);
    out := match reply
      case Early(text) => text
      case Report(lines) => Join(RenderAll(lines), Separator);
  }

  // ---------------------------------------------------------------- properties

  /**
   * The early returns: a missing source file makes no call; a source
   * without faces returns before the target is looked at, after one
   * detection; a missing target file or a target without faces returns
   * after the source's detection (and the target's).
   */
  lemma EarlyReturns(args: CompareArgs, svc: FaceService)
    ensures Detected(args.sourceImage, args.isSourceImageUrl, svc).None? ==>
              Compare(args, svc) == (Early(MissingText(args.sourceImage)), [])
    ensures Detected(args.sourceImage, args.isSourceImageUrl, svc) == Some([]) ==>
              Compare(args, svc) == (Early(NoFacesText(args.sourceImage)),
                                     [DetectFaces(SourceOf(args.sourceImage, args.isSourceImageUrl))])
    ensures Compare(args, svc).0.Early? ==>
              forall e :: e in Compare(args, svc).1 ==> e.DetectFaces?
    ensures Compare(args, svc).0.Report? <==>
              (var s := Detected(args.sourceImage, args.isSourceImageUrl, svc);
               var t := Detected(args.targetImage, args.isTargetImageUrl, svc);
               s.Some? && |s.value| > 0 && t.Some? && |t.value| > 0)
  {
  }

  /**
   * A report opens with the header of its mode, ends with the closing line
   * naming the requested mode, and starts its calls with the two
   * detections, source first.
   */
  lemma ReportShape(args: CompareArgs, svc: FaceService)
    requires Compare(args, svc).0.Report?
    ensures var lines := Compare(args, svc).0.lines; var ev := Compare(args, svc).1;
      |lines| >= 2 && lines[|lines| - 1] == Closing(args.comparisonMode)
      && (args.comparisonMode == "exhaustive" ==> lines[0] == ExhaustiveHeader(args.sourceImage, args.targetImage))
      && (args.comparisonMode == "most_similar" ==> lines[0] == MostSimilarHeader(args.sourceImage, args.targetImage))
      && (args.comparisonMode != "exhaustive" && args.comparisonMode != "most_similar" ==> lines[0] == LargestHeader)
      && |ev| >= 2 && ev[0] == DetectFaces(SourceOf(args.sourceImage, args.isSourceImageUrl))
      && ev[1] == DetectFaces(SourceOf(args.targetImage, args.isTargetImageUrl))
  {
  }

  /** Once both images have faces, the reply is the mode's report closed by the mode line, after both detections. */
  lemma BothDetected(args: CompareArgs, svc: FaceService, sources: seq<Face>, targets: seq<Face>)
    requires Detected(args.sourceImage, args.isSourceImageUrl, svc) == Some(sources) && |sources| > 0
    requires Detected(args.targetImage, args.isTargetImageUrl, svc) == Some(targets) && |targets| > 0
    ensures var c := Comparison(args, sources, targets, svc);
      Compare(args, svc) == (Report(c.0 + [Closing(args.comparisonMode)]),
                             [DetectFaces(SourceOf(args.sourceImage, args.isSourceImageUrl)),
                              DetectFaces(SourceOf(args.targetImage, args.isTargetImageUrl))] + c.1)
  {
    var a := DetectFaces(SourceOf(args.sourceImage, args.isSourceImageUrl));
    var b := DetectFaces(SourceOf(args.targetImage, args.isTargetImageUrl));
    assert [a] + [b] == [a, b];
  }

  /** The calls of exhaustive mode: both detections, then its `find_similar` calls. */
  lemma ExhaustiveReport(args: CompareArgs, svc: FaceService, sources: seq<Face>, targets: seq<Face>)
    requires Detected(args.sourceImage, args.isSourceImageUrl, svc) == Some(sources) && |sources| > 0
    requires Detected(args.targetImage, args.isTargetImageUrl, svc) == Some(targets) && |targets| > 0
    requires args.comparisonMode == "exhaustive"
    ensures Compare(args, svc).1
            == [DetectFaces(SourceOf(args.sourceImage, args.isSourceImageUrl)),
                DetectFaces(SourceOf(args.targetImage, args.isTargetImageUrl))] + ExhaustiveEvents(sources, targets)
  {
    BothDetected(args, svc, sources, targets);
    assert ModeOf(args.comparisonMode) == Exhaustive;
  }

  /**
   * Exhaustive mode asks once per source face, in order, for at most as many
   * candidates as the target has faces, in mode matchFace, among the
   * target's face ids; and it prints one line per answered face.
   */
  lemma ExhaustiveAsksPerSourceFace(args: CompareArgs, svc: FaceService, sources: seq<Face>, targets: seq<Face>)
    requires Detected(args.sourceImage, args.isSourceImageUrl, svc) == Some(sources) && |sources| > 0
    requires Detected(args.targetImage, args.isTargetImageUrl, svc) == Some(targets) && |targets| > 0
    requires args.comparisonMode == "exhaustive"
    ensures var ev := Compare(args, svc).1;
      |ev| == 2 + |sources|
      && forall k :: 0 <= k < |sources| ==>
           ev[2 + k].FindSimilar? && ev[2 + k].request.faceId == sources[k].faceId
           && ev[2 + k].request.faceIds == FaceIds(targets)
           && ev[2 + k].request.maxNumOfCandidatesReturned == |targets|
           && ev[2 + k].request.mode == "matchFace"
  {
    ExhaustiveReport(args, svc, sources, targets);
    var calls := ExhaustiveEvents(sources, targets);
    var ev := Compare(args, svc).1;
    forall k | 0 <= k < |sources|
      ensures ev[2 + k].FindSimilar? && ev[2 + k].request.faceId == sources[k].faceId
        && ev[2 + k].request.faceIds == FaceIds(targets)
        && ev[2 + k].request.maxNumOfCandidatesReturned == |targets|
        && ev[2 + k].request.mode == "matchFace"
    {
      assert ev[2 + k] == calls[k];
    }
  }

  /** The number of lines exhaustive mode prints: one per answered face. */
  function AnswerCount(sources: seq<Face>, targets: seq<Face>, svc: FaceService): nat
  {
    if sources == [] then 0
    else
      var s := sources[|sources| - 1];
      AnswerCount(sources[..|sources| - 1], targets, svc) + |svc.findSimilar(ExhaustiveRequest(s, targets))|
  }

  lemma {:induction false} ExhaustiveLineCount(sources: seq<Face>, targets: seq<Face>, svc: FaceService)
    ensures |ExhaustiveLines(sources, targets, svc)| == AnswerCount(sources, targets, svc)
    decreases |sources|
  {
    if sources != [] {
      ExhaustiveLineCount(sources[..|sources| - 1], targets, svc);
    }
  }

  /** The reply of most-similar mode: its header, one line per source face and the closing line; its calls. */
  lemma MostSimilarReport(args: CompareArgs, svc: FaceService, sources: seq<Face>, targets: seq<Face>)
    requires Detected(args.sourceImage, args.isSourceImageUrl, svc) == Some(sources) && |sources| > 0
    requires Detected(args.targetImage, args.isTargetImageUrl, svc) == Some(targets) && |targets| > 0
    requires args.comparisonMode == "most_similar"
    ensures Compare(args, svc).0.Report?
    ensures Compare(args, svc).0.lines
            == [MostSimilarHeader(args.sourceImage, args.targetImage)] + MostSimilarLines(sources, targets, svc)
               + [Closing(args.comparisonMode)]
    ensures Compare(args, svc).1
            == [DetectFaces(SourceOf(args.sourceImage, args.isSourceImageUrl)),
                DetectFaces(SourceOf(args.targetImage, args.isTargetImageUrl))] + MostSimilarEvents(sources, targets)
  {
    BothDetected(args, svc, sources, targets);
    assert ModeOf(args.comparisonMode) == MostSimilar;
  }

  /**
   * Most-similar mode asks once per source face with limit 1 in mode
   * matchPerson, and prints exactly one line per source face: the first
   * answer, or "did not find a similar face" when the answer is empty.
   */
  lemma MostSimilarOneLinePerFace(args: CompareArgs, svc: FaceService, sources: seq<Face>, targets: seq<Face>)
    requires Detected(args.sourceImage, args.isSourceImageUrl, svc) == Some(sources) && |sources| > 0
    requires Detected(args.targetImage, args.isTargetImageUrl, svc) == Some(targets) && |targets| > 0
    requires args.comparisonMode == "most_similar"
    ensures var lines := Compare(args, svc).0.lines; var ev := Compare(args, svc).1;
      |lines| == |sources| + 2 && |ev| == |sources| + 2
      && forall k :: 0 <= k < |sources| ==>
           var answer := svc.findSimilar(MostSimilarRequest(sources[k], targets));
           ev[2 + k] == FindSimilar(SimilarRequest(sources[k].faceId, FaceIds(targets), 1, "matchPerson"))
           && (answer == [] <==> lines[1 + k] == NoSimilarFace(sources[k]))
  {
    MostSimilarReport(args, svc, sources, targets);
    var body := MostSimilarLines(sources, targets, svc);
    var calls := MostSimilarEvents(sources, targets);
    var lines := Compare(args, svc).0.lines;
    var ev := Compare(args, svc).1;
    forall k | 0 <= k < |sources|
      ensures var answer := svc.findSimilar(MostSimilarRequest(sources[k], targets));
        ev[2 + k] == FindSimilar(SimilarRequest(sources[k].faceId, FaceIds(targets), 1, "matchPerson"))
        && (answer == [] <==> lines[1 + k] == NoSimilarFace(sources[k]))
    {
      assert lines[1 + k] == body[k];
      assert ev[2 + k] == calls[k];
    }
  }

  /**
   * Every mode other than "exhaustive" and "most_similar" compares the
   * first largest face of each image with one verification call.
   */
  lemma OtherModesCompareLargest(args: CompareArgs, svc: FaceService, sources: seq<Face>, targets: seq<Face>)
    requires Detected(args.sourceImage, args.isSourceImageUrl, svc) == Some(sources) && |sources| > 0
    requires Detected(args.targetImage, args.isTargetImageUrl, svc) == Some(targets) && |targets| > 0
    requires args.comparisonMode != "exhaustive" && args.comparisonMode != "most_similar"
    ensures exists i: nat, j: nat ::
      IsLargestAt(sources, i) && IsLargestAt(targets, j)
      && Compare(args, svc).1 == [DetectFaces(SourceOf(args.sourceImage, args.isSourceImageUrl)),
                                  DetectFaces(SourceOf(args.targetImage, args.isTargetImageUrl)),
                                  VerifyFaces(sources[i].faceId, targets[j].faceId)]
      && |Compare(args, svc).0.lines| == 5
      && Compare(args, svc).0.lines[3] == Verified(sources[i], targets[j], svc.verify(sources[i].faceId, targets[j].faceId))
  {
    var i, j := LargestFaceIndex(sources), LargestFaceIndex(targets);
    assert IsLargestAt(sources, i) && IsLargestAt(targets, j);
  }
}
