/**
 * What the face tools see of the face service's answers: detected faces
 * with an id, an integer bounding box and a recognition quality, plus the
 * texts Python renders for a face and its rectangle (kept opaque). Shared
 * by the tools of src/tools/.
 */
module FaceModel {
  import opened Wrappers
  import opened Text

  /** A face rectangle: left, top, width and height in pixels. */
  datatype Rect = Rect(left: int, top: int, width: int, height: int)

  /** `QualityForRecognition`, with `Unknown` for a face whose quality was not reported. */
  datatype Quality = High | Medium | Low | Unknown

  /**
   * A detected face. `rectText` is `str(face.face_rectangle)` and `text` is
   * `str(face)`: how the SDK renders them is not part of this model.
   */
  datatype Face = Face(faceId: string, rect: Rect, quality: Quality, rectText: string, text: string)

  /** Where an image is read from: a URL handed to the service, or a local file opened for reading. */
  datatype ImageSource = FromUrl(url: string) | FromFile(path: string)

  /** Where a path is read from: the URL itself, or the local file. */
  function SourceOf(path: string, isUrl: bool): ImageSource
  {
    if isUrl then FromUrl(path) else FromFile(path)
  }

  /** What a tool call ends with: the returned text, or an exception escaping the tool. */
  datatype ToolOutcome = Returned(text: string) | Raised(exception: string)

  /** The separator every face tool joins its output lines with. */
  const Separator := "\n---\n"

  /** `face.face_rectangle.width * face.face_rectangle.height`. */
  function Area(f: Face): int
  {
    f.rect.width * f.rect.height
  }

  /** `i` is the first index of a face whose area is maximal. */
  predicate IsLargestAt(faces: seq<Face>, i: nat)
  {
    i < |faces|
    && (forall k :: 0 <= k < |faces| ==> Area(faces[k]) <= Area(faces[i]))
    && (forall k :: 0 <= k < i ==> Area(faces[k]) < Area(faces[i]))
  }

  /** `areas.index(max(areas))` over the faces' areas: the first face of maximal area. */
  function LargestFaceIndex(faces: seq<Face>): (i: nat)
    requires |faces| > 0
    ensures IsLargestAt(faces, i)
  {
    if |faces| == 1 then 0
    else
      var j := LargestFaceIndex(faces[..|faces| - 1]);
      assert forall k :: 0 <= k < |faces| - 1 ==> faces[..|faces| - 1][k] == faces[k];
      if Area(faces[|faces| - 1]) > Area(faces[j]) then |faces| - 1 else j
  }

  /** Only one index is the first of maximal area, so the largest face is determined. */
  lemma LargestFaceIndexUnique(faces: seq<Face>, i: nat)
    requires IsLargestAt(faces, i)
    ensures LargestFaceIndex(faces) == i
  {
  }

  /** `[face.face_id for face in faces]`. */
  function FaceIds(faces: seq<Face>): (ids: seq<string>)
    ensures |ids| == |faces| && forall k :: 0 <= k < |faces| ==> ids[k] == faces[k].faceId
  {
    if faces == [] then [] else [faces[0].faceId] + FaceIds(faces[1..])
  }

  /**
   * `{face.face_id: face.face_rectangle for face in faces}.get(id, None)`,
   * rendered: later faces overwrite earlier ones with the same id, and a
   * missing id renders as `None`.
   */
  function BboxText(faces: seq<Face>, id: string): string
  {
    if faces == [] then "None"
    else if faces[|faces| - 1].faceId == id then faces[|faces| - 1].rectText
    else BboxText(faces[..|faces| - 1], id)
  }

  /** The bounding box shown for an id is the one of the last face carrying that id. */
  lemma {:induction false} BboxTextIsLast(faces: seq<Face>, id: string, i: nat)
    requires i < |faces| && faces[i].faceId == id
    requires forall k :: i < k < |faces| ==> faces[k].faceId != id
    ensures BboxText(faces, id) == faces[i].rectText
    decreases |faces|
  {
    if i < |faces| - 1 {
      var init := faces[..|faces| - 1];
      assert init[i] == faces[i];
      BboxTextIsLast(init, id, i);
    }
  }

  /** An id no face carries renders as `None`. */
  lemma {:induction false} BboxTextMissing(faces: seq<Face>, id: string)
    requires forall k :: 0 <= k < |faces| ==> faces[k].faceId != id
    ensures BboxText(faces, id) == "None"
    decreases |faces|
  {
    if faces != [] {
      var init := faces[..|faces| - 1];
      assert forall k :: 0 <= k < |init| ==> init[k] == faces[k];
      BboxTextMissing(init, id);
    }
  }
}
