/**
 * The identify tool `identify_face_from_group` of
 * src/tools/IdentifyFaceInLPG.py: detect the faces of one image, ask the
 * service to identify all of them in a large person group, and report one
 * line per identify result, paired with the detected face of the same
 * index.
 */
module IdentifyFace {
  import opened Wrappers
  import opened Text
  import opened FaceModel

  /** One candidate of an identify result: the person's id and the confidence as printed. */
  datatype Candidate = Candidate(personId: string, confidenceText: string)

  /** One identify result; its candidates come best first. */
  datatype IdentifyResult = IdentifyResult(candidates: seq<Candidate>)

  /** The service as the tool sees it: `os.path.exists` (a path it accepts also opens), detection, and identification in a group. */
  datatype IdentifyService = IdentifyService(
    fileExists: string -> bool,
    detect: ImageSource -> seq<Face>,
    identify: (seq<string>, string) -> seq<IdentifyResult>)

  /** The service calls the tool makes. */
  datatype Event = DetectFaces(source: ImageSource) | IdentifyFaces(faceIds: seq<string>, groupUuid: string)

  /** The lines the tool writes, by kind; `Render` gives their text. */
  datatype Line =
    | DetectedCount(count: nat, filePath: string)
    | Identified(faceId: string, bbox: string, best: Candidate, groupUuid: string)
    | NotIdentified(faceId: string, bbox: string, groupUuid: string)

  function Render(l: Line): string
  {
    match l
    case DetectedCount(n, path) => "Detected " + NatToString(n) + " face(s) in the provided image file: " + path
    case Identified(id, bbox, c, g) =>
      "Face ID " + id + " (bounding box: " + bbox + ") in the image was identified as person ID: " + c.personId
      + " with confidence: " + c.confidenceText + " in the group with UUID: " + g
    case NotIdentified(id, bbox, g) =>
      "Face ID " + id + " (bounding box: " + bbox + ") in the image could not be identified in the group with UUID: " + g
  }

  /** The rendered lines, in order. */
  function RenderAll(lines: seq<Line>): seq<string>
  {
    seq(|lines|, k requires 0 <= k < |lines| => Render(lines[k]))
  }

  function MissingText(filePath: string): string
  {
    "Image file: " + filePath + " does not exist."
  }

  function NoFaceText(filePath: string): string
  {
    "No face detected in the provided image file: " + filePath
  }

  /** The exception `face_ids[idx]` raises when there are more results than faces. */
  const IndexErrorText := "IndexError: list index out of range"

  /** The line for one result, reported against face id `faceId`: the first candidate, or not identified. */
  function ResultLine(faces: seq<Face>, faceId: string, r: IdentifyResult, groupUuid: string): Line
  {
    if |r.candidates| > 0 then Identified(faceId, BboxText(faces, faceId), r.candidates[0], groupUuid)
    else NotIdentified(faceId, BboxText(faces, faceId), groupUuid)
  }

  /** The lines for the results, each paired with the face of the same index. */
  function IdentifyLines(faces: seq<Face>, results: seq<IdentifyResult>, groupUuid: string): (r: seq<Line>)
    requires |results| <= |faces|
    ensures |r| == |results|
    ensures forall k :: 0 <= k < |results| ==> r[k] == ResultLine(faces, faces[k].faceId, results[k], groupUuid)
  {
    if results == [] then []
    else
      var k := |results| - 1;
      IdentifyLines(faces, results[..k], groupUuid) + [ResultLine(faces, faces[k].faceId, results[k], groupUuid)]
  }

  /** Taking one result more adds its line. */
  lemma IdentifyLinesNext(faces: seq<Face>, results: seq<IdentifyResult>, groupUuid: string, idx: nat)
    requires idx < |results| && idx < |faces|
    ensures IdentifyLines(faces, results[..idx + 1], groupUuid)
            == IdentifyLines(faces, results[..idx], groupUuid) + [ResultLine(faces, faces[idx].faceId, results[idx], groupUuid)]
  {
    assert results[..idx + 1][..idx] == results[..idx];
  }

  /** The tool: what it ends with and the calls it makes. */
  function Identify(filePath: string, groupUuid: string, isUrl: bool, svc: IdentifyService): (ToolOutcome, seq<Event>)
  {
    if !isUrl && !svc.fileExists(filePath) then (Returned(MissingText(filePath)), [])
    else
      var src := SourceOf(filePath, isUrl);
      var faces := svc.detect(src);
      if |faces| == 0 then (Returned(NoFaceText(filePath)), [DetectFaces(src)])
      else
        var ids := FaceIds(faces);
        var results := svc.identify(ids, groupUuid);
        var events := [DetectFaces(src)] + [IdentifyFaces(ids, groupUuid)];
        if |results| > |faces| then (Raised(IndexErrorText), events)
        else (Returned(Join(RenderAll(IdentifyLines(faces, results, groupUuid)), Separator)), events)
  }

  /** The loop over the identify results; `raised` is set when a result has no face of its index. */
  method ReportResults(faces: seq<Face>, ids: seq<string>, results: seq<IdentifyResult>, groupUuid: string)
    returns (lines: seq<Line>, raised: bool)
    requires ids == FaceIds(faces)
    ensures raised <==> |results| > |faces|
    ensures !raised ==> lines == IdentifyLines(faces, results, groupUuid)
  {
    lines := [];
    var idx := 0;
    while idx < |results|
      invariant idx <= |results| && idx <= |faces|
      invariant lines == IdentifyLines(faces, results[..idx], groupUuid)
    {
      if idx >= |ids| {
        return lines, true;
      }
      var faceId := ids[idx];
      var bbox := BboxText(faces, faceId);
      var r := results[idx];
      var line;
      if |r.candidates| > 0 {
        line := Identified(faceId, bbox, r.candidates[0], groupUuid);
      } else {
        line := NotIdentified(faceId, bbox, groupUuid);
      }
      IdentifyLinesNext(faces, results, groupUuid, idx);
      lines := lines + [line];
      idx := idx + 1;
    }
    assert results[..idx] == results;
    raised := false;
  }

  /**
   * `identify_face_from_group`. The "Detected N face(s)" line is written
   * and then dropped when the output list is reset.
   */
  method IdentifyFaceFromGroup(filePath: string, groupUuid: string, isUrl: bool, svc: IdentifyService)
    returns (outcome: ToolOutcome, events: seq<Event>)
    ensures (outcome, events) == Identify(filePath, groupUuid, isUrl, svc)
  {
    var src;
    if isUrl {
      src := FromUrl(filePath);
    } else {
      if !svc.fileExists(filePath) {
        return Returned(MissingText(filePath)), [];
      }
      src := FromFile(filePath);
    }
    var faces := svc.detect(src);
    events := [DetectFaces(src)];
    var lines: seq<Line>;
    if |faces| == 0 {
      return Returned(NoFaceText(filePath)), events;
    } else {
      lines := [DetectedCount(|faces|, filePath)];
    }
    var ids := FaceIds(faces);
    var results := svc.identify(ids, groupUuid);
    events := events + [IdentifyFaces(ids, groupUuid)];
    var raised;
    lines, raised := ReportResults(faces, ids, results, groupUuid);
    if raised {
      return Raised(IndexErrorText), events;
    }
    outcome := Returned(Join(RenderAll(lines), Separator));
  }

  // ---------------------------------------------------------------- properties

  /**
   * The early answers: a missing local file makes no call, an image without
   * faces is reported after one detection, and identification is asked for
   * all detected face ids at once, in detection order.
   */
  lemma IdentifyCalls(filePath: string, groupUuid: string, isUrl: bool, svc: IdentifyService)
    ensures !isUrl && !svc.fileExists(filePath) ==>
              Identify(filePath, groupUuid, isUrl, svc) == (Returned(MissingText(filePath)), [])
    ensures var faces := svc.detect(SourceOf(filePath, isUrl));
      (isUrl || svc.fileExists(filePath)) && |faces| == 0 ==>
        Identify(filePath, groupUuid, isUrl, svc) == (Returned(NoFaceText(filePath)), [DetectFaces(SourceOf(filePath, isUrl))])
    ensures var faces := svc.detect(SourceOf(filePath, isUrl)); var ev := Identify(filePath, groupUuid, isUrl, svc).1;
      (isUrl || svc.fileExists(filePath)) && |faces| > 0 ==>
        |ev| == 2 && ev[1].IdentifyFaces? && ev[1].groupUuid == groupUuid
        && |ev[1].faceIds| == |faces| && forall k :: 0 <= k < |faces| ==> ev[1].faceIds[k] == faces[k].faceId
  {
  }

  /**
   * More identify results than detected faces raise `IndexError`;
   * otherwise the result has exactly one line per identify result.
   */
  lemma IdentifyRaisesOnExtraResults(filePath: string, groupUuid: string, isUrl: bool, svc: IdentifyService)
    requires isUrl || svc.fileExists(filePath)
    requires |svc.detect(SourceOf(filePath, isUrl))| > 0
    ensures var faces := svc.detect(SourceOf(filePath, isUrl));
      var results := svc.identify(FaceIds(faces), groupUuid);
      (Identify(filePath, groupUuid, isUrl, svc).0.Raised? <==> |results| > |faces|)
      && (|results| <= |faces| ==>
            Identify(filePath, groupUuid, isUrl, svc).0 == Returned(Join(RenderAll(IdentifyLines(faces, results, groupUuid)), Separator)))
  {
  }

  /**
   * Line `k` reports result `k` against detected face `k`: the first
   * candidate when there is one, "could not be identified" otherwise. The
   * "Detected" line never reaches the output.
   */
  lemma LinesPairByIndex(faces: seq<Face>, results: seq<IdentifyResult>, groupUuid: string, k: nat)
    requires |results| <= |faces| && k < |results|
    ensures var l := IdentifyLines(faces, results, groupUuid)[k];
      !l.DetectedCount? && l.faceId == faces[k].faceId && l.groupUuid == groupUuid
      && (l.Identified? <==> results[k].candidates != [])
      && (l.Identified? ==> l.best == results[k].candidates[0])
  {
  }

  /** With distinct face ids, line `k` shows the bounding box of face `k`. */
  lemma LineShowsOwnBox(faces: seq<Face>, results: seq<IdentifyResult>, groupUuid: string, k: nat)
    requires |results| <= |faces| && k < |results|
    requires forall i, j :: 0 <= i < j < |faces| ==> faces[i].faceId != faces[j].faceId
    ensures IdentifyLines(faces, results, groupUuid)[k].bbox == faces[k].rectText
  {
    BboxTextIsLast(faces, faces[k].faceId, k);
  }
}
