/**
 * The enroll tool `enroll_face_to_group` of src/tools/EnrollFaceToLPG.py:
 * one person is created, then every image of the list is detected, its
 * candidate faces filtered by quality, one face chosen and added to the
 * person, and the group retrained; images without a usable face are
 * skipped with a message.
 *
 * The service is a set of oracles: `personId` is the id `create_person`
 * answers, `fileExists` is `os.path.exists` taken to mean that the path also
 * opens for reading, and `detect` the detection answer for an image. The calls the tool makes are logged as events.
 * `Run` is the specification of the loop, one image at a time.
 */
module EnrollFace {
  import opened Wrappers
  import opened Text
  import opened FaceModel

  /** The tool's arguments. */
  datatype EnrollArgs = EnrollArgs(
    filePathList: seq<string>,
    personName: string,
    groupUuid: string,
    isUrl: bool,
    checkQuality: bool)

  /** The service calls the tool makes. `target` is `[left, top, width, height]`. */
  datatype Event =
    | CreatePerson(groupUuid: string, name: string)
    | DetectFaces(source: ImageSource)
    | AddFace(groupUuid: string, personId: string, path: string, target: seq<int>)
    | Train(groupUuid: string)

  /** Where the loop stands: the output lines, the calls made, and the exception that escaped, if any. */
  datatype RunState = RunState(lines: seq<Line>, events: seq<Event>, raised: Option<string>)

  /** The lines the tool writes, by kind; `Render` gives their text. */
  datatype Line =
    | Created(personName: string, personId: string, groupUuid: string)
    | Missing(path: string)
    | NoFaces(path: string)
    | NoHighQuality(path: string, detected: nat)
    | OneFace(path: string, face: Face)
    | LargestFace(path: string, face: Face)
    | Added(path: string, personName: string, personId: string, groupUuid: string)

  /** The text of a line, as the tool formats it. */
  function Render(l: Line): string
  {
    match l
    case Created(name, id, g) =>
      "Create the person name: " + name + " with person id: " + id + " in the large person group with group UUID: " + g
    case Missing(path) => "Image file: " + path + " does not exist. Ignoring this image."
    case NoFaces(path) => "Image file: " + path + " does not contain any faces. Ignoring this image."
    case NoHighQuality(path, n) =>
      "Image file: " + path + " contains " + NatToString(n)
      + " faces but no faces with high quality for recognition. Ignoring this image."
    case OneFace(path, f) =>
      "Image file: " + path + " contains 1 face for recognition. Face ID: " + f.faceId
      + " (bounding box: " + f.rectText + ")."
    case LargestFace(path, f) =>
      "Image file: " + path + " contains more than 1 face for recognition. Seletecting the largest face. Face ID: "
      + f.faceId + " (bounding box: " + f.rectText + ")."
    case Added(path, name, id, g) =>
      "Add image file: " + path + " to person name: " + name + " with person id: " + id
      + " in the group with group UUID " + g
  }

  /** The rendered lines, in order. */
  function RenderAll(lines: seq<Line>): (r: seq<string>)
    ensures |r| == |lines| && forall k :: 0 <= k < |lines| ==> r[k] == Render(lines[k])
  {
    if lines == [] then [] else RenderAll(lines[..|lines| - 1]) + [Render(lines[|lines| - 1])]
  }

  /**
   * The exception `open(path, "rb")` raises for a path that `fileExists`
   * rejects. A path that exists but does not open (a directory, an
   * unreadable file) is taken to open.
   */
  function NotFound(path: string): string
  {
    "FileNotFoundError: " + path
  }

  /** `[left, top, width, height]` of a face's rectangle, the `target_face` of `add_face`. */
  function Target(f: Face): seq<int>
  {
    [f.rect.left, f.rect.top, f.rect.width, f.rect.height]
  }

  /** The faces of quality HIGH, in detection order. */
  function HighOnly(faces: seq<Face>): (r: seq<Face>)
    ensures forall f :: f in r <==> f in faces && f.quality == High
    ensures |r| <= |faces|
  {
    if faces == [] then []
    else
      var init := HighOnly(faces[..|faces| - 1]);
      assert faces == faces[..|faces| - 1] + [faces[|faces| - 1]];
      if faces[|faces| - 1].quality == High then init + [faces[|faces| - 1]] else init
  }

  /**
   * The filter keeps detection order: the HIGH faces of a longer detection
   * are those of its first part followed by those of the rest.
   */
  lemma {:induction false} HighOnlyAppend(a: seq<Face>, b: seq<Face>)
    ensures HighOnly(a + b) == HighOnly(a) + HighOnly(b)
    decreases |b|
  {
    if b == [] {
      assert a + b == a;
    } else {
      var b' := b[..|b| - 1];
      var x := b[|b| - 1];
      assert (a + b)[..|a + b| - 1] == a + b';
      assert (a + b)[|a + b| - 1] == x;
      HighOnlyAppend(a, b');
    }
  }

  /** The candidate faces: all detected faces, or only the HIGH ones when quality is checked. */
  function Candidates(faces: seq<Face>, checkQuality: bool): seq<Face>
  {
    if checkQuality then HighOnly(faces) else faces
  }

  /** The face enrolled from the candidates: the only one, or the first of largest area. */
  function Choose(candidates: seq<Face>): Face
    requires |candidates| > 0
  {
    if |candidates| == 1 then candidates[0] else candidates[LargestFaceIndex(candidates)]
  }

  /** The face an image contributes, if any: none for a skipped file, no face or no candidate. */
  function ChosenFace(args: EnrollArgs, fileExists: string -> bool, detect: ImageSource -> seq<Face>, path: string): Option<Face>
  {
    if !args.isUrl && !fileExists(path) then None
    else
      var cands := Candidates(detect(SourceOf(path, args.isUrl)), args.checkQuality);
      if |cands| == 0 then None else Some(Choose(cands))
  }

  /** One turn of the loop, for image `path`: the lines it appends, the calls it makes, and whether it raises. */
  function ImageStep(args: EnrollArgs, personId: string, fileExists: string -> bool,
                     detect: ImageSource -> seq<Face>, path: string): RunState
  {
    if !args.isUrl && !fileExists(path) then RunState([Missing(path)], [], None)
    else
      var src := SourceOf(path, args.isUrl);
      var faces := detect(src);
      if |faces| < 1 then RunState([NoFaces(path)], [DetectFaces(src)], None)
      else
        var cands := Candidates(faces, args.checkQuality);
        if |cands| < 1 then RunState([NoHighQuality(path, |faces|)], [DetectFaces(src)], None)
        else
          var f := Choose(cands);
          var line := if |cands| == 1 then OneFace(path, f) else LargestFace(path, f);
          if !fileExists(path) then RunState([line], [DetectFaces(src)], Some(NotFound(path)))
          else
            RunState([line, Added(path, args.personName, personId, args.groupUuid)],
                     [DetectFaces(src), AddFace(args.groupUuid, personId, path, Target(f)), Train(args.groupUuid)],
                     None)
  }

  /** The state after the create call and the first `n` images; the loop ends at the first exception. */
  function Run(args: EnrollArgs, personId: string, fileExists: string -> bool,
               detect: ImageSource -> seq<Face>, n: nat): RunState
    requires n <= |args.filePathList|
  {
    if n == 0 then RunState([Created(args.personName, personId, args.groupUuid)], [CreatePerson(args.groupUuid, args.personName)], None)
    else
      var prev := Run(args, personId, fileExists, detect, n - 1);
      if prev.raised.Some? then prev
      else
        var r := ImageStep(args, personId, fileExists, detect, args.filePathList[n - 1]);
        RunState(prev.lines + r.lines, prev.events + r.events, r.raised)
  }

  /** The tool's result: the lines joined by the separator, or the exception that escaped. */
  function Outcome(s: RunState): ToolOutcome
  {
    match s.raised
    case Some(e) => Raised(e)
    case None => Returned(Join(RenderAll(s.lines), Separator))
  }

  // ---------------------------------------------------------------- the tool

  /**
   * The body of the tool's loop for one image: the lines it appends, the
   * calls it makes, and the exception that escapes from it, if any.
   */
  method ProcessImage(args: EnrollArgs, personId: string, fileExists: string -> bool,
                      detect: ImageSource -> seq<Face>, path: string)
    returns (lines: seq<Line>, events: seq<Event>, raised: Option<string>)
    ensures RunState(lines, events, raised) == ImageStep(args, personId, fileExists, detect, path)
  {
    var src;
    if args.isUrl {
      src := FromUrl(path);
    } else {
      if !fileExists(path) {
        return [Missing(path)], [], None;
      }
      src := FromFile(path);
    }
    var faces := detect(src);
    events := [DetectFaces(src)];
    if |faces| < 1 {
      return [NoFaces(path)], events, None;
    }
    var cands := if args.checkQuality then HighOnly(faces) else faces;
    if |cands| < 1 {
      return [NoHighQuality(path, |faces|)], events, None;
    }
    var chosen: Face;
    if |cands| == 1 {
      chosen := cands[0];
      lines := [OneFace(path, chosen)];
    } else {
      chosen := cands[LargestFaceIndex(cands)];
      lines := [LargestFace(path, chosen)];
    }
    if !fileExists(path) {
      return lines, events, Some(NotFound(path));
    }
    events := events + [AddFace(args.groupUuid, personId, path, Target(chosen)), Train(args.groupUuid)];
    lines := lines + [Added(path, args.personName, personId, args.groupUuid)];
    raised := None;
  }

  /**
   * `enroll_face_to_group`: returns what the tool ends with and the calls it
   * made, which are those of `Run` over the whole list.
   */
  method EnrollFaceToGroup(args: EnrollArgs, personId: string, fileExists: string -> bool,
                           detect: ImageSource -> seq<Face>)
    returns (outcome: ToolOutcome, events: seq<Event>)
    ensures var s := Run(args, personId, fileExists, detect, |args.filePathList|);
      outcome == Outcome(s) && events == s.events
  {
    var files := args.filePathList;
    var lines := [Created(args.personName, personId, args.groupUuid)];
    events := [CreatePerson(args.groupUuid, args.personName)];
    var i := 0;
    while i < |files|
      invariant i <= |files|
      invariant Run(args, personId, fileExists, detect, i) == RunState(lines, events, None)
    {
      var more, calls, raised := ProcessImage(args, personId, fileExists, detect, files[i]);
      RunNext(args, personId, fileExists, detect, i);
      lines, events := lines + more, events + calls;
      if raised.Some? {
        RaisedStops(args, personId, fileExists, detect, i + 1, |files|);
        return Raised(raised.value), events;
      }
      i := i + 1;
    }
    outcome := Returned(Join(RenderAll(lines), Separator));
  }

  // ---------------------------------------------------------------- properties

  /** Past a state that has not raised, `Run` adds the next image's step. */
  lemma RunNext(args: EnrollArgs, personId: string, fileExists: string -> bool,
                detect: ImageSource -> seq<Face>, n: nat)
    requires n < |args.filePathList| && Run(args, personId, fileExists, detect, n).raised.None?
    ensures var prev := Run(args, personId, fileExists, detect, n);
      var r := ImageStep(args, personId, fileExists, detect, args.filePathList[n]);
      Run(args, personId, fileExists, detect, n + 1) == RunState(prev.lines + r.lines, prev.events + r.events, r.raised)
  {
  }

  /** Once an exception escaped, later images change nothing. */
  lemma {:induction false} RaisedStops(args: EnrollArgs, personId: string, fileExists: string -> bool,
                                       detect: ImageSource -> seq<Face>, m: nat, n: nat)
    requires m <= n <= |args.filePathList|
    requires Run(args, personId, fileExists, detect, m).raised.Some?
    ensures Run(args, personId, fileExists, detect, n) == Run(args, personId, fileExists, detect, m)
    decreases n - m
  {
    if m < n {
      RaisedStops(args, personId, fileExists, detect, m, n - 1);
    }
  }

  /**
   * The chosen face is a candidate (of quality HIGH when quality is
   * checked) and the first one of maximal area among the candidates.
   */
  lemma ChooseSpec(candidates: seq<Face>, checked: bool, faces: seq<Face>)
    requires |candidates| > 0 && candidates == Candidates(faces, checked)
    ensures Choose(candidates) in faces
    ensures checked ==> Choose(candidates).quality == High
    ensures exists i: nat :: IsLargestAt(candidates, i) && Choose(candidates) == candidates[i]
  {
    var i := LargestFaceIndex(candidates);
    assert IsLargestAt(candidates, i);
    assert Choose(candidates) in candidates;
  }

  /**
   * What one image does. A missing local file is skipped before detection;
   * an image with no face, or with no candidate, is skipped after it; an
   * image with a chosen face gets exactly one `add_face` with that face's
   * rectangle, followed by a training call, unless `fileExists` rejects the
   * path at that open. Nothing else raises, and that open only for a chosen
   * face.
   */
  lemma ImageStepSpec(args: EnrollArgs, personId: string, fileExists: string -> bool,
                      detect: ImageSource -> seq<Face>, path: string)
    ensures var r := ImageStep(args, personId, fileExists, detect, path);
      var chosen := ChosenFace(args, fileExists, detect, path);
      (!args.isUrl && !fileExists(path) ==> r == RunState([Missing(path)], [], None))
      && (r.raised.Some? <==> chosen.Some? && !fileExists(path))
      && (r.raised.Some? ==> r.raised.value == NotFound(path))
      && (chosen.None? ==> forall e :: e in r.events ==> !e.AddFace?)
      && (chosen.Some? && fileExists(path) ==>
            r.events == [DetectFaces(SourceOf(path, args.isUrl)),
                         AddFace(args.groupUuid, personId, path, Target(chosen.value)),
                         Train(args.groupUuid)]
            && r.lines[|r.lines| - 1] == Added(path, args.personName, personId, args.groupUuid))
      && (forall e :: e in r.events ==> !e.CreatePerson?)
      && |r.lines| > 0
  {
  }

  /** With quality checked, an image whose detected faces are all below HIGH is skipped with the count of faces. */
  lemma NoHighQualitySkips(args: EnrollArgs, personId: string, fileExists: string -> bool,
                           detect: ImageSource -> seq<Face>, path: string)
    requires args.isUrl || fileExists(path)
    requires args.checkQuality
    requires var faces := detect(SourceOf(path, args.isUrl));
      |faces| > 0 && forall k :: 0 <= k < |faces| ==> faces[k].quality != High
    ensures ImageStep(args, personId, fileExists, detect, path) ==
      RunState([NoHighQuality(path, |detect(SourceOf(path, args.isUrl))|)],
               [DetectFaces(SourceOf(path, args.isUrl))], None)
  {
    var faces := detect(SourceOf(path, args.isUrl));
    assert forall f :: f in faces ==> f.quality != High;
    assert forall k :: 0 <= k < |HighOnly(faces)| ==> HighOnly(faces)[k] in HighOnly(faces);
  }

  /** Exactly one person is created, and before anything else. */
  lemma {:induction false} CreatePersonFirstAndOnce(args: EnrollArgs, personId: string, fileExists: string -> bool,
                                                    detect: ImageSource -> seq<Face>, n: nat)
    requires n <= |args.filePathList|
    ensures var ev := Run(args, personId, fileExists, detect, n).events;
      |ev| > 0 && ev[0] == CreatePerson(args.groupUuid, args.personName)
      && forall k :: 0 < k < |ev| ==> !ev[k].CreatePerson?
  {
    if n > 0 {
      CreatePersonFirstAndOnce(args, personId, fileExists, detect, n - 1);
      var path := args.filePathList[n - 1];
      ImageStepSpec(args, personId, fileExists, detect, path);
      var prev: seq<Event> := Run(args, personId, fileExists, detect, n - 1).events;
      var step: seq<Event> := ImageStep(args, personId, fileExists, detect, path).events;
      forall k | |prev| <= k < |prev + step| ensures !(prev + step)[k].CreatePerson? {
        assert (prev + step)[k] == step[k - |prev|];
        assert step[k - |prev|] in step;
      }
    }
  }

  /** The number of `add_face` calls in a log. */
  function AddCount(events: seq<Event>): nat
  {
    if events == [] then 0
    else AddCount(events[..|events| - 1]) + (if events[|events| - 1].AddFace? then 1 else 0)
  }

  lemma {:induction false} AddCountAppend(a: seq<Event>, b: seq<Event>)
    ensures AddCount(a + b) == AddCount(a) + AddCount(b)
    decreases |b|
  {
    if b == [] {
      assert a + b == a;
    } else {
      assert (a + b)[..|a + b| - 1] == a + b[..|b| - 1];
      assert (a + b)[|a + b| - 1] == b[|b| - 1];
      AddCountAppend(a, b[..|b| - 1]);
    }
  }

  /** The number of images among the first `n` that have a chosen face. */
  function AcceptedCount(args: EnrollArgs, fileExists: string -> bool, detect: ImageSource -> seq<Face>, n: nat): nat
    requires n <= |args.filePathList|
  {
    if n == 0 then 0
    else AcceptedCount(args, fileExists, detect, n - 1)
         + (if ChosenFace(args, fileExists, detect, args.filePathList[n - 1]).Some? then 1 else 0)
  }

  /** A step that does not raise adds one face exactly when the image has a chosen face, and one line more then. */
  lemma ImageStepCounts(args: EnrollArgs, personId: string, fileExists: string -> bool,
                        detect: ImageSource -> seq<Face>, path: string)
    requires ImageStep(args, personId, fileExists, detect, path).raised.None?
    ensures var r := ImageStep(args, personId, fileExists, detect, path);
      var added := if ChosenFace(args, fileExists, detect, path).Some? then 1 else 0;
      AddCount(r.events) == added && |r.lines| == 1 + added
  {
    var r := ImageStep(args, personId, fileExists, detect, path);
    ImageStepSpec(args, personId, fileExists, detect, path);
    if ChosenFace(args, fileExists, detect, path).Some? {
      var a := AddFace(args.groupUuid, personId, path, Target(ChosenFace(args, fileExists, detect, path).value));
      var t := [DetectFaces(SourceOf(path, args.isUrl)), a, Train(args.groupUuid)];
      assert t[..2][..1] == [t[0]];
      assert AddCount(t) == AddCount(t[..2]) == AddCount(t[..2][..1]) + 1;
    } else {
      AddCountNone(r.events);
    }
  }

  /**
   * When no exception escapes, `add_face` is called exactly once per image
   * with a chosen face, and every line block is appended: one line per
   * skipped image, two per enrolled one, after the create line.
   */
  lemma {:induction false} OneAddPerAcceptedImage(args: EnrollArgs, personId: string, fileExists: string -> bool,
                                                  detect: ImageSource -> seq<Face>, n: nat)
    requires n <= |args.filePathList|
    requires Run(args, personId, fileExists, detect, n).raised.None?
    ensures AddCount(Run(args, personId, fileExists, detect, n).events) == AcceptedCount(args, fileExists, detect, n)
    ensures |Run(args, personId, fileExists, detect, n).lines| == 1 + n + AcceptedCount(args, fileExists, detect, n)
  {
    if n == 0 {
      assert AddCount([CreatePerson(args.groupUuid, args.personName)]) == AddCount([]);
    } else {
      var prev := Run(args, personId, fileExists, detect, n - 1);
      var path := args.filePathList[n - 1];
      var r := ImageStep(args, personId, fileExists, detect, path);
      assert prev.raised.None? && Run(args, personId, fileExists, detect, n) == RunState(prev.lines + r.lines, prev.events + r.events, r.raised);
      OneAddPerAcceptedImage(args, personId, fileExists, detect, n - 1);
      ImageStepCounts(args, personId, fileExists, detect, path);
      AddCountAppend(prev.events, r.events);
    }
  }

  lemma {:induction false} AddCountNone(events: seq<Event>)
    requires forall e :: e in events ==> !e.AddFace?
    ensures AddCount(events) == 0
    decreases |events|
  {
    if events != [] {
      assert events[|events| - 1] in events;
      assert forall e :: e in events[..|events| - 1] ==> e in events;
      AddCountNone(events[..|events| - 1]);
    }
  }
}
