/**
 * The detect tool `get_face_dect` of src/tools/AzureFaceAttrib.py: the
 * attribute list built from the flags, the early returns, the one detection
 * request, and one output block per detected face.
 */
module FaceAttrib {
  import opened Wrappers
  import opened Text
  import opened FaceModel

  /** The face attributes the tool can request, as `FaceAttributeType` names them. */
  datatype Attribute = HeadPose | Glasses | Occlusion | Blur | Exposure | Mask | QualityForRecognition | Age

  /** The tool's keyword arguments; a missing `file_path` (Python `None`) is `None`. */
  datatype DetectArgs = DetectArgs(
    filePath: Option<string>,
    isUrl: bool,
    returnHeadPose: bool,
    returnGlasses: bool,
    returnOcclusion: bool,
    returnBlur: bool,
    returnExposure: bool,
    returnMask: bool,
    returnQualityForRecognition: bool,
    returnAge: bool,
    returnLandmarks: bool)

  /** The one detection request the tool makes. */
  datatype DetectRequest = DetectRequest(source: ImageSource, returnFaceLandmarks: bool, attributes: seq<Attribute>)

  const NoImageMessage := "The face api did not receive any image. Please provide an image."
  const MissingImageMessage := "The client provided image does not exist in its path."

  /** The flag that asks for attribute `a`. */
  function Requested(args: DetectArgs, a: Attribute): bool
  {
    match a
    case HeadPose => args.returnHeadPose
    case Glasses => args.returnGlasses
    case Occlusion => args.returnOcclusion
    case Blur => args.returnBlur
    case Exposure => args.returnExposure
    case Mask => args.returnMask
    case QualityForRecognition => args.returnQualityForRecognition
    case Age => args.returnAge
  }

  /** The position of `a` in the order the tool tests the flags. */
  function Rank(a: Attribute): nat
  {
    match a
    case HeadPose => 0
    case Glasses => 1
    case Occlusion => 2
    case Blur => 3
    case Exposure => 4
    case Mask => 5
    case QualityForRecognition => 6
    case Age => 7
  }

  /** Listed in the tool's fixed order, hence without duplicates. */
  predicate InFixedOrder(attrs: seq<Attribute>)
  {
    forall i, j :: 0 <= i < j < |attrs| ==> Rank(attrs[i]) < Rank(attrs[j])
  }

  /** `attrs` after `if flag: attrs.append(a)`. */
  function AddIf(attrs: seq<Attribute>, flag: bool, a: Attribute): seq<Attribute>
  {
    if flag then attrs + [a] else attrs
  }

  /** The attribute tested at position `k` of the fixed order. */
  function AttributeAt(k: nat): (a: Attribute)
    requires k < 8
    ensures Rank(a) == k
  {
    if k == 0 then HeadPose
    else if k == 1 then Glasses
    else if k == 2 then Occlusion
    else if k == 3 then Blur
    else if k == 4 then Exposure
    else if k == 5 then Mask
    else if k == 6 then QualityForRecognition
    else Age
  }

  /** The list after the first `k` conditional appends. */
  function ListUpTo(args: DetectArgs, k: nat): seq<Attribute>
    requires k <= 8
  {
    if k == 0 then [] else AddIf(ListUpTo(args, k - 1), Requested(args, AttributeAt(k - 1)), AttributeAt(k - 1))
  }

  /**
   * The attribute list: one append per set flag, in the order head pose,
   * glasses, occlusion, blur, exposure, mask, quality for recognition, age.
   * The landmarks flag never adds to it.
   */
  function AttributeList(args: DetectArgs): seq<Attribute>
  {
    ListUpTo(args, 8)
  }

  /** Every rank in `attrs` is below `n`. */
  predicate RanksBelow(attrs: seq<Attribute>, n: nat)
  {
    forall k :: 0 <= k < |attrs| ==> Rank(attrs[k]) < n
  }

  /** After `k` appends, exactly the requested attributes of rank below `k` are listed, in the fixed order. */
  lemma {:induction false} ListUpToSpec(args: DetectArgs, k: nat)
    requires k <= 8
    ensures forall a :: a in ListUpTo(args, k) <==> Requested(args, a) && Rank(a) < k
    ensures InFixedOrder(ListUpTo(args, k)) && RanksBelow(ListUpTo(args, k), k)
  {
    if k > 0 {
      ListUpToSpec(args, k - 1);
      var prev, b := ListUpTo(args, k - 1), AttributeAt(k - 1);
      assert ListUpTo(args, k) == AddIf(prev, Requested(args, b), b);
      forall a ensures Rank(a) < k <==> Rank(a) < k - 1 || a == b {
        if Rank(a) == k - 1 {
          match a
          case HeadPose =>
          case Glasses =>
          case Occlusion =>
          case Blur =>
          case Exposure =>
          case Mask =>
          case QualityForRecognition =>
          case Age =>
        }
      }
    }
  }

  /**
   * The attribute list names an attribute exactly when its flag is set, in
   * the fixed order, so without duplicates.
   */
  lemma AttributeListSpec(args: DetectArgs)
    ensures forall a :: a in AttributeList(args) <==> Requested(args, a)
    ensures InFixedOrder(AttributeList(args))
    ensures forall i, j :: 0 <= i < j < |AttributeList(args)| ==> AttributeList(args)[i] != AttributeList(args)[j]
  {
    ListUpToSpec(args, 8);
  }

  /**
   * One `if flag: face_atributes.append(a)`, the `k`-th of the tool's
   * conditional appends (`args` and `k` only name the step for the proof).
   */
  method AppendIf(attrs: seq<Attribute>, flag: bool, a: Attribute, ghost args: DetectArgs, ghost k: nat)
    returns (r: seq<Attribute>)
    requires k < 8 && a == AttributeAt(k) && flag == Requested(args, a) && attrs == ListUpTo(args, k)
    ensures r == ListUpTo(args, k + 1)
  {
    r := attrs;
    if flag {
      r := r + [a];
    }
  }

  /** The tool's sequence of conditional appends. */
  method BuildAttributeList(args: DetectArgs) returns (attrs: seq<Attribute>)
    ensures attrs == AttributeList(args)
  {
    attrs := [];
    attrs := AppendIf(attrs, args.returnHeadPose, HeadPose, args, 0);
    attrs := AppendIf(attrs, args.returnGlasses, Glasses, args, 1);
    attrs := AppendIf(attrs, args.returnOcclusion, Occlusion, args, 2);
    attrs := AppendIf(attrs, args.returnBlur, Blur, args, 3);
    attrs := AppendIf(attrs, args.returnExposure, Exposure, args, 4);
    attrs := AppendIf(attrs, args.returnMask, Mask, args, 5);
    attrs := AppendIf(attrs, args.returnQualityForRecognition, QualityForRecognition, args, 6);
    attrs := AppendIf(attrs, args.returnAge, Age, args, 7);
  }

  /** The first attribute of a list in the fixed order has the least rank. */
  lemma FirstHasLeastRank(xs: seq<Attribute>, a: Attribute)
    requires InFixedOrder(xs) && a in xs
    ensures Rank(xs[0]) <= Rank(a)
  {
    var j :| 0 <= j < |xs| && xs[j] == a;
    if j > 0 {
      assert Rank(xs[0]) < Rank(xs[j]);
    }
  }

  /** Past the head of a list in the fixed order come exactly its other members. */
  lemma TailMembers(xs: seq<Attribute>)
    requires InFixedOrder(xs) && xs != []
    ensures forall a :: a in xs[1..] <==> a in xs && a != xs[0]
  {
    forall a | a in xs[1..] ensures a in xs && a != xs[0] {
      var i :| 0 <= i < |xs[1..]| && xs[1..][i] == a;
      assert xs[i + 1] == a;
    }
  }

  /** A list in the fixed order is determined by its members. */
  lemma {:induction false} FixedOrderUnique(xs: seq<Attribute>, ys: seq<Attribute>)
    requires InFixedOrder(xs) && InFixedOrder(ys)
    requires forall a :: a in xs <==> a in ys
    ensures xs == ys
    decreases |xs|
  {
    if xs == [] {
      assert forall k :: 0 <= k < |ys| ==> ys[k] in xs;
    } else {
      assert xs[0] in xs && ys[0] in ys;
      FirstHasLeastRank(xs, ys[0]);
      FirstHasLeastRank(ys, xs[0]);
      TailMembers(xs);
      TailMembers(ys);
      FixedOrderUnique(xs[1..], ys[1..]);
      assert xs == [xs[0]] + xs[1..] && ys == [ys[0]] + ys[1..];
    }
  }

  /** The text of one face's block: the face's rendering between a heading line and an indented line. */
  function FaceBlock(f: Face): string
  {
    "\n        Azure AI Face API Detection Results: " + f.text + "\n        "
  }

  /** The blocks of the detected faces, in detection order. */
  function Blocks(faces: seq<Face>): (r: seq<string>)
    ensures |r| == |faces| && forall k :: 0 <= k < |faces| ==> r[k] == FaceBlock(faces[k])
  {
    if faces == [] then [] else Blocks(faces[..|faces| - 1]) + [FaceBlock(faces[|faces| - 1])]
  }

  /**
   * `get_face_dect`. `fileExists` stands for `os.path.exists` and for the `open` after it succeeding, and `detect`
   * for the service's detection; `request` is the detection request made,
   * if any.
   */
  method GetFaceDetect(args: DetectArgs, fileExists: string -> bool, detect: DetectRequest -> seq<Face>)
    returns (out: string, request: Option<DetectRequest>)
    ensures args.filePath.None? ==> out == NoImageMessage && request.None?
    ensures args.filePath.Some? && !args.isUrl && !fileExists(args.filePath.value) ==>
              out == MissingImageMessage && request.None?
    ensures args.filePath.Some? && (args.isUrl || fileExists(args.filePath.value)) ==>
              request.Some?
              && request.value.source == SourceOf(args.filePath.value, args.isUrl)
              && request.value.returnFaceLandmarks == args.returnLandmarks
              && request.value.attributes == AttributeList(args)
              && out == Join(Blocks(detect(request.value)), Separator)
  {
    if args.filePath.None? {
      return NoImageMessage, None;
    }
    var path := args.filePath.value;
    var attrs := BuildAttributeList(args);
    if !args.isUrl && !fileExists(path) {
      return MissingImageMessage, None;
    }
    var req := DetectRequest(SourceOf(path, args.isUrl), args.returnLandmarks, attrs);
    request := Some(req);
    var faces := detect(req);
    var results: seq<string> := [];
    var i := 0;
    while i < |faces|
      invariant i <= |faces|
      invariant results == Blocks(faces[..i])
    {
      assert faces[..i + 1][..i] == faces[..i];
      results := results + [FaceBlock(faces[i])];
      i := i + 1;
    }
    assert faces[..|faces|] == faces;
    out := Join(results, Separator);
  }
}
