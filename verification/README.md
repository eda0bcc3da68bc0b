# Azure Face MCP tools: prompt parsing, dispatch and tool logic in Dafny

This project models the repository's own logic around the Azure Face and Azure Blob
tools it exposes to an MCP client:

- **Prompt interpretation** (`src/prompt_utils/prompt_parser.py`). Three extractors turn a
  free-text prompt into a typed record or a `ValueError`: detect, compare and enroll.
  - The image patterns `https?://\S+?\.(ext)` and `[^\s"']+?\.(ext)` are matched by hand,
    with `re.search` semantics. The search takes the leftmost start and the lazy run gives
    the shortest match there; matching ignores case. These matchers are in `Patterns`;
    `Lexing` holds the keyword, name and comma-split pieces.
  - Each extractor is an executable engine that follows the order in which the regex
    engine backtracks. It is proved equal to a declarative description of what the
    pattern accepts.
- **Dispatch** (`src/prompt_utils/prompt_dispatch.py`). The prompt is parsed, then the
  detect tool is looked up and called with the parsed fields as keyword arguments.
- **Two-step delete confirmation** (`src/tools/DeleteFromLPG.py`). A class holds the
  module-level dictionary of pending deletions as a `map<string, bool>` field. Its two
  methods update that map as the tool functions do.
- **The tool functions' own selection and formatting rules**. These cover the attribute
  list of the detect tool, the per-image face choice of enrollment, mode routing and the
  largest-face rule of comparison, the pairing of identify results with detected faces,
  and the blob folder, URL and download-path strings.
  - Azure SDK, storage and filesystem calls are parameters: total functions standing for
    the service's answers.
  - The tools return the text they end with or the modelled exception that escapes from
    them, together with the ordered log of service calls they made.

Behaviour of the code as written that the model keeps, with the lemma that states it:

- Detect prefers a URL anywhere in the prompt over a local path earlier in it
  (`PromptParser.DetectPrefersUrl`).
- The enroll file group `LOCAL|URL(\s*,\s*LOCAL|URL)*` binds `|` loosest. A
  comma-separated list is therefore only accepted after a leading URL, and the prompt
  "Enroll the faces in img1.jpg, img2.jpg to …" from the function's own docstring is
  rejected (`PromptParser.EnrollLocalGroupHasNoSpace`).
- A person key and a face key collide when an id holds a colon
  (`DeleteConfirm.KeysCollideOnColon`).
- The identify tool writes a "Detected N face(s)" line and then drops it by resetting its
  output list (`IdentifyFace.LinesPairByIndex`).
- A folder name given with a trailing "/" makes every relative download path absolute, so
  `os.path.join` discards the local directory (`BlobFolders.TrailingSlashEscapes`).
- An empty local directory makes `os.makedirs("")` raise on the first blob directly under
  the folder (`BlobFolders.EmptyLocalDirRaises`).
- Enrollment opens `file_path` as a local file for `add_face` even when `is_url` is true.
  Without such a local file the tool raises (the `Raised` outcome of `EnrollFace.ImageStep`).

## Model

| member | source | states |
|---|---|---|
| `Text.StripIsSlice` | src/prompt_utils/prompt_parser.py:33 | `str.strip()` gives a slice of its input whose ends are not whitespace and around which everything is whitespace |
| `Text.StripIdempotent` | src/prompt_utils/prompt_parser.py:134 | stripping a stripped item changes nothing |
| `Text.NatToStringValue` | src/tools/BlobFolderTools.py:120-125 | the decimal rendering of a count reads back as that count |
| `Text.JoinSnoc` | src/tools/CompareImages.py:186 | joining one more part appends the separator and that part |
| `Scan.FirstFromSpec` | src/prompt_utils/prompt_parser.py:34 | the search returns the least start that succeeds, and fails only when no start does |
| `Patterns.ExtAtExact` | src/prompt_utils/prompt_parser.py:5 | trying `jpg\|jpeg\|png\|bmp\|gif\|webp` in order finds exactly the extension slices, ignoring case |
| `Patterns.PrefixLen` | src/prompt_utils/prompt_parser.py:6 | the greedy `https?://` prefix: its length when present, with the `s` given back when `://` does not follow it |
| `Patterns.SpanIffDot` | src/prompt_utils/prompt_parser.py:6-7 | the matches at a start are exactly the ends closed by a dot of the lazy run that an extension follows |
| `Patterns.FirstEndIsShortest` | src/prompt_utils/prompt_parser.py:6-7 | the engine's match at a start is the shortest match there, and fails only when there is none |
| `Patterns.SearchIsLeftmostShortest` | src/prompt_utils/prompt_parser.py:34-35 | `re.search` finds the leftmost start that has a match and its shortest match, and fails only when no match exists |
| `Patterns.SearchIsFirstMatch` | src/prompt_utils/prompt_parser.py:34-35 | a search over the whole string reports the first match of the pattern |
| `Patterns.SearchBounds` | src/prompt_utils/prompt_parser.py:45 | the reported match is a non-empty slice of the prompt |
| `Patterns.SpanSlice` | src/prompt_utils/prompt_parser.py:93-94 | `re.fullmatch` on a captured slice accepts exactly when the pattern matches that slice in place |
| `Patterns.UrlSpanIsLocalSpan` | src/prompt_utils/prompt_parser.py:6-7 | every URL match is also a local-path match unless its run holds a quote |
| `Patterns.StartRunSpec` | src/prompt_utils/prompt_parser.py:113 | backtracking into a lazy run gives the least match end from which the rest of the pattern succeeds, and fails when none does |
| `Lexing.KwAfterComplete` | src/prompt_utils/prompt_parser.py:112-115 | `\s+keyword` is found whenever it is present |
| `Lexing.LeadInEndComplete` | src/prompt_utils/prompt_parser.py:112 | the optional `the` of `\s+(?:the\s+)?` is forced: before an element the engine's choice is the only one |
| `Lexing.NameAfterComplete` | src/prompt_utils/prompt_parser.py:114-115 | a quoted `[\w\-]+` name is found with the same start and is at least as long |
| `Lexing.NameAfterExact` | src/prompt_utils/prompt_parser.py:114-115 | a name followed by a character outside `[\w\-]` is read exactly |
| `Lexing.SplitCommaPieces` | src/prompt_utils/prompt_parser.py:134 | `re.split(r",\s*", …)` gives at least one piece; no piece holds a comma, and no piece after the first starts with whitespace |
| `Lexing.SplitJoin` | src/prompt_utils/prompt_parser.py:134 | the split undoes `", ".join(items)` for comma-free items whose later members do not start with whitespace |
| `PromptParser.ParseDetect` | src/prompt_utils/prompt_parser.py:27-56 | `parse_prompt_for_detect`: the URL search, the local search only without a URL, the `ValueError`, and the two keyword flags; its contract is stated by `DetectPrefersUrl`, `DetectFallsBackToLocal`, `DetectFailsWithoutImage` and `DetectFlags` |
| `PromptParser.DetectPrefersUrl` | src/prompt_utils/prompt_parser.py:34-56 | a URL match exists iff the result is `is_url`; its `file_path` is then the leftmost, shortest URL match |
| `PromptParser.DetectFallsBackToLocal` | src/prompt_utils/prompt_parser.py:35-49 | a local result happens iff no URL match exists and a local one does; `file_path` is then the leftmost, shortest local match |
| `PromptParser.DetectFailsWithoutImage` | src/prompt_utils/prompt_parser.py:37-38 | `ValueError("Could not find image path or URL in prompt.")` iff neither pattern matches the stripped prompt |
| `PromptParser.DetectFlags` | src/prompt_utils/prompt_parser.py:40-56 | mask and glasses are substring tests on the lower-cased stripped prompt; the seven other flags are false |
| `PromptParser.ParseCompare` | src/prompt_utils/prompt_parser.py:80-98 | `parse_prompt_for_compare`: the compare search on the stripped prompt, the `ValueError`, both captures and the two full-match URL flags; its contract is stated by `CompareRejects` and `CompareAccepts` |
| `PromptParser.ImageEndShortest` | src/prompt_utils/prompt_parser.py:67-77 | the final `(?P<right>LOCAL\|URL)` captures the shortest local span at its start, or the shortest URL span when there is no local one |
| `PromptParser.CompareAtRight` | src/prompt_utils/prompt_parser.py:86-92 | the right side the compare engine reports is that shortest capture |
| `PromptParser.CompareRejects` | src/prompt_utils/prompt_parser.py:85-89 | `ValueError("Unrecognized compare prompt format")` iff the `compare [the] X with [the] Y` shape occurs at no position of the stripped prompt |
| `PromptParser.CompareAccepts` | src/prompt_utils/prompt_parser.py:85-98 | an accepted prompt is captured from the leftmost occurrence of the shape; each `*_is_url` is the full-match test of its own side |
| `PromptParser.CompareSearchSpec` | src/prompt_utils/prompt_parser.py:86 | the compare search reports the first start where the engine matches, and none earlier |
| `PromptParser.CompareAtComplete` | src/prompt_utils/prompt_parser.py:67-77 | whenever the shape can match at a start, the engine matches there |
| `PromptParser.UrlFlagInPlace` | src/prompt_utils/prompt_parser.py:93-94 | the full-match URL test of a captured side equals a URL match of that slice in place |
| `PromptParser.EnrollAtSound` | src/prompt_utils/prompt_parser.py:110-118 | what the enroll engine reports at a start is a match of the whole pattern, with every capture inside the prompt |
| `PromptParser.EnrollAtComplete` | src/prompt_utils/prompt_parser.py:110-118 | whenever the pattern can match at a start, the engine matches there with the same file group start |
| `PromptParser.RestComplete` | src/prompt_utils/prompt_parser.py:113 | the `(?:\s*,\s*LOCAL\|URL)*` repetition followed by the tail is found whenever it is there |
| `PromptParser.EnrollSearchSpec` | src/prompt_utils/prompt_parser.py:129 | the enroll search reports the first start where the engine matches, and none earlier |
| `PromptParser.ParseEnroll` | src/prompt_utils/prompt_parser.py:121-144 | `parse_prompt_for_enroll`: the enroll search, the `ValueError`, the split and stripped file list, the all-URL flag, both names and `check_quality`; its contract is stated by `EnrollRejects`, `EnrollAccepts` and `EnrollNames` |
| `PromptParser.EnrollRejects` | src/prompt_utils/prompt_parser.py:128-131 | `ValueError("Unrecognized enroll prompt format")` iff the pattern matches at no position |
| `PromptParser.EnrollAccepts` | src/prompt_utils/prompt_parser.py:132-144 | an accepted prompt is captured from the leftmost match; the file list is the stripped pieces of the split, `is_url` holds iff every piece fully matches the URL pattern, and `check_quality` is true |
| `PromptParser.EnrollNames` | src/prompt_utils/prompt_parser.py:114-115 | group and person are non-empty `[\w\-]` runs, and the file list is never empty |
| `PromptParser.StripEach` | src/prompt_utils/prompt_parser.py:134 | item `k` of the list is piece `k` stripped |
| `PromptParser.EnrollLocalGroupHasNoSpace` | src/prompt_utils/prompt_parser.py:113 | a file group that does not open with a URL is one local path without whitespace, so a comma-and-space list of local paths never matches |
| `PromptParser.FileListJoin` | src/prompt_utils/prompt_parser.py:134 | the file list undoes `", ".join(paths)` for stripped, comma-free paths |
| `PromptDispatch.DispatchDetect` | src/prompt_utils/prompt_dispatch.py:6-28 | `dispatch_prompt_detect`: parse, then look the tool up, then call it with the parsed fields; its contract is stated by `DispatchOutcome`, `DispatchPassesFields` and `DispatchedAttributes` |
| `PromptDispatch.DispatchOutcome` | src/prompt_utils/prompt_dispatch.py:11-16 | a parse error ends the dispatch with that error, whatever the lookup; otherwise a missing tool fails the lookup and a found tool is called once, its result returned unchanged |
| `PromptDispatch.DispatchPassesFields` | src/prompt_utils/prompt_dispatch.py:16-28 | `file_path`, `is_url` and all nine `return_*` arguments equal the parsed record's fields |
| `PromptDispatch.DispatchedAttributes` | src/prompt_utils/prompt_dispatch.py:16-28 | through dispatch the detect tool asks for glasses exactly when the prompt says "glasses" and for mask exactly when it says "mask", and for nothing else |
| `FaceAttrib.AttributeAt` | src/tools/AzureFaceAttrib.py:34-49 | the attribute tested at step `k` has rank `k` in the fixed order |
| `FaceAttrib.AttributeList` | src/tools/AzureFaceAttrib.py:33-49 | the attribute list the eight conditional appends build; its contract is stated by `ListUpToSpec` and `AttributeListSpec` |
| `FaceAttrib.ListUpToSpec` | src/tools/AzureFaceAttrib.py:34-49 | after `k` conditional appends, exactly the requested attributes of rank below `k` are listed, in the fixed order |
| `FaceAttrib.AttributeListSpec` | src/tools/AzureFaceAttrib.py:34-49 | an attribute is listed iff its flag is set; the list is in the fixed order and has no duplicates |
| `FaceAttrib.FixedOrderUnique` | src/tools/AzureFaceAttrib.py:34-49 | a list in the fixed order is determined by its members |
| `FaceAttrib.AppendIf` | src/tools/AzureFaceAttrib.py:34-49 | one conditional append moves the list from `k` steps to `k + 1` steps |
| `FaceAttrib.BuildAttributeList` | src/tools/AzureFaceAttrib.py:33-49 | the appends build the attribute list |
| `FaceAttrib.Blocks` | src/tools/AzureFaceAttrib.py:75-81 | one block per detected face, in detection order |
| `FaceAttrib.FaceBlock` | src/tools/AzureFaceAttrib.py:76-80 | the block written for one detected face around its rendering; `Blocks` states that there is one per face, in order |
| `FaceAttrib.GetFaceDetect` | src/tools/AzureFaceAttrib.py:29-81 | `None` returns the no-image message before anything; a missing local file returns the missing-image message without detection; otherwise one detection with landmarks passed separately and the flag list as attributes, and the blocks joined by "\n---\n" |
| `FaceModel.LargestFaceIndex` | src/tools/CompareImages.py:138-145 | `areas.index(max(areas))`: the first face whose width*height is maximal |
| `FaceModel.LargestFaceIndexUnique` | src/tools/EnrollFaceToLPG.py:101-109 | only one index is the first of maximal area |
| `FaceModel.FaceIds` | src/tools/IdentifyFaceInLPG.py:48 | id `k` is the id of detected face `k` |
| `FaceModel.BboxTextIsLast` | src/tools/IdentifyFaceInLPG.py:49 | the dictionary from face id to rectangle shows, for an id, the rectangle of the last face carrying it |
| `FaceModel.BboxTextMissing` | src/tools/CompareImages.py:84 | an id no face carries shows as `None` |
| `DeleteConfirm.PersonKey` | src/tools/DeleteFromLPG.py:26 | the person key `group:person`; `PersonKeyInjective`, `PersonAndFaceKeysDiffer` and `KeysCollideOnColon` state when keys are distinct |
| `DeleteConfirm.FaceKey` | src/tools/DeleteFromLPG.py:82 | the face key `group:person:face`; the same lemmas state when it differs from a person key |
| `DeleteConfirm.Step` | src/tools/DeleteFromLPG.py:29-47 | one call's effect on the pending map and its action (warn, refuse or delete); its contract is stated by `StepSpec` and used by both methods |
| `DeleteConfirm.StepSpec` | src/tools/DeleteFromLPG.py:26-47 | a call deletes iff its key is pending and the word is exactly `YES_DELETE`, and warns iff the key is absent; the key stays pending unless deleted, and other entries are kept |
| `DeleteConfirm.PendingDeletes.constructor` | src/tools/DeleteFromLPG.py:11 | the dictionary starts empty |
| `DeleteConfirm.PendingDeletes.DeletePerson` | src/tools/DeleteFromLPG.py:17-69 | the map moves by one step on `group:person`. A warning returns `needs_confirmation` with the warning text, and a wrong word returns `confirmation_required`. Otherwise the key is removed and deletion attempted; a service failure is reported, not raised |
| `DeleteConfirm.PendingDeletes.DeleteFace` | src/tools/DeleteFromLPG.py:72-127 | the same protocol on `group:person:face` |
| `DeleteConfirm.PersonKeyInjective` | src/tools/DeleteFromLPG.py:26 | person keys of colon-free group ids are distinct for distinct pairs |
| `DeleteConfirm.PersonAndFaceKeysDiffer` | src/tools/DeleteFromLPG.py:82 | with colon-free ids a person key is never a face key |
| `DeleteConfirm.KeysCollideOnColon` | src/tools/DeleteFromLPG.py:82 | person `p:f` of group `g` has the key of face `f` of person `p`, so warning about one confirms the other |
| `DeleteConfirm.Untouched` | src/tools/DeleteFromLPG.py:82-103 | a key no call uses keeps its presence in the map |
| `DeleteConfirm.PendingHasWarning` | src/tools/DeleteFromLPG.py:29-44 | a pending key was made pending by an earlier warning, and every later call for it was refused |
| `DeleteConfirm.DeleteFollowsWarning` | src/tools/DeleteFromLPG.py:29-47 | deletion happens only after a warning for the same key, with only refusals for that key in between |
| `DeleteConfirm.WarnAfterDelete` | src/tools/DeleteFromLPG.py:29-47 | after a deletion the next call for that key warns again, whatever its word |
| `DeleteConfirm.FirstCallWarns` | src/tools/DeleteFromLPG.py:29-37 | the first call for a key warns even when it carries `YES_DELETE` |
| `EnrollFace.HighOnly` | src/tools/EnrollFaceToLPG.py:79-86 | the candidates under quality checking are exactly the HIGH-quality faces |
| `EnrollFace.HighOnlyAppend` | src/tools/EnrollFaceToLPG.py:82-86 | the quality filter keeps detection order: filtering a concatenation filters each part in turn |
| `EnrollFace.Choose` | src/tools/EnrollFaceToLPG.py:94-114 | the face enrolled from the candidates; its contract is stated by `ChooseSpec` |
| `EnrollFace.ImageStep` | src/tools/EnrollFaceToLPG.py:46-131 | one turn of the loop for one image; its contract is stated by `ImageStepSpec`, `NoHighQualitySkips` and `ImageStepCounts` |
| `EnrollFace.Run` | src/tools/EnrollFaceToLPG.py:37-131 | the create call then the loop over the first `n` images, ending at the first exception; its contract is stated by `RunNext`, `RaisedStops`, `CreatePersonFirstAndOnce` and `OneAddPerAcceptedImage` |
| `EnrollFace.ImageStepCounts` | src/tools/EnrollFaceToLPG.py:115-131 | a step that does not raise adds one face exactly when the image has a chosen face, and one line more then |
| `EnrollFace.ChooseSpec` | src/tools/EnrollFaceToLPG.py:94-114 | the chosen face is a candidate (HIGH when quality is checked) and the first of maximal area among them |
| `EnrollFace.ImageStepSpec` | src/tools/EnrollFaceToLPG.py:46-131 | a missing local file is skipped before detection; no face or no candidate is skipped after it; a chosen face gets one `add_face` with its left, top, width and height, then training, unless opening the file raises |
| `EnrollFace.NoHighQualitySkips` | src/tools/EnrollFaceToLPG.py:87-93 | with quality checked, an image whose faces are all below HIGH is skipped with its face count |
| `EnrollFace.ProcessImage` | src/tools/EnrollFaceToLPG.py:46-136 | the loop body for one image does one image step |
| `EnrollFace.EnrollFaceToGroup` | src/tools/EnrollFaceToLPG.py:37-137 | the tool's text and calls are those of the run over the whole list |
| `EnrollFace.RaisedStops` | src/tools/EnrollFaceToLPG.py:115-126 | once an exception escapes, later images change nothing |
| `EnrollFace.CreatePersonFirstAndOnce` | src/tools/EnrollFaceToLPG.py:37-45 | exactly one person is created, before any other call |
| `EnrollFace.OneAddPerAcceptedImage` | src/tools/EnrollFaceToLPG.py:115-131 | without an exception, `add_face` is called once per image with a chosen face; each skipped image adds one line and each enrolled image two |
| `EnrollFace.AddCountAppend` | src/tools/EnrollFaceToLPG.py:115 | the count of `add_face` calls adds up over concatenated logs |
| `CompareFaces.MatchLines` | src/tools/CompareImages.py:92-101 | one line per answered face, with the box of that face in the target |
| `CompareFaces.ExhaustiveEvents` | src/tools/CompareImages.py:85-91 | one `find_similar` per source face, in order |
| `CompareFaces.MostSimilarLines` | src/tools/CompareImages.py:109-131 | one line per source face, from its own answer |
| `CompareFaces.ModeOf` | src/tools/CompareImages.py:78-132 | the routing of `comparison_mode`: "exhaustive", "most_similar", and every other string to the largest-face branch; `OtherModesCompareLargest` states the last |
| `CompareFaces.Comparison` | src/tools/CompareImages.py:78-180 | the report lines and calls once both images have faces; its contract is stated by `ExhaustiveAsksPerSourceFace`, `MostSimilarOneLinePerFace` and `OtherModesCompareLargest` |
| `CompareFaces.Compare` | src/tools/CompareImages.py:32-186 | `compare_source_image_to_target_image` as a reply and a call log; its contract is stated by `EarlyReturns`, `ReportShape` and `BothDetected` |
| `CompareFaces.ReportMatches` | src/tools/CompareImages.py:92-101 | the inner loop builds the match lines |
| `CompareFaces.CompareExhaustive` | src/tools/CompareImages.py:85-101 | the nested loops give the exhaustive lines and calls |
| `CompareFaces.CompareMostSimilar` | src/tools/CompareImages.py:109-131 | the loop gives the most-similar lines and calls |
| `CompareFaces.CompareDetected` | src/tools/CompareImages.py:78-180 | the mode routing gives the comparison of the requested mode |
| `CompareFaces.CompareReply` | src/tools/CompareImages.py:32-185 | the tool up to its answer gives the modelled reply and calls |
| `CompareFaces.CompareImages` | src/tools/CompareImages.py:17-186 | the returned text is the reply joined by "\n---\n", and the calls are the modelled ones |
| `CompareFaces.EarlyReturns` | src/tools/CompareImages.py:32-77 | a missing source makes no call; a faceless source returns before the target is looked at; a missing or faceless target returns after its own detection |
| `CompareFaces.ReportShape` | src/tools/CompareImages.py:181-186 | a report opens with its mode's header, ends with the closing line naming the requested mode, and starts with both detections, source first |
| `CompareFaces.BothDetected` | src/tools/CompareImages.py:78-185 | once both images have faces, the reply is the mode's report plus the closing line |
| `CompareFaces.ExhaustiveAsksPerSourceFace` | src/tools/CompareImages.py:85-101 | exhaustive mode asks once per source face, in mode matchFace, for at most as many candidates as the target has faces, among the target's ids; one line per answered face |
| `CompareFaces.ExhaustiveLineCount` | src/tools/CompareImages.py:92-101 | exhaustive mode prints as many lines as there are answers in total |
| `CompareFaces.MostSimilarOneLinePerFace` | src/tools/CompareImages.py:109-131 | most-similar mode asks with limit 1 in mode matchPerson, and prints one line per source face: the first answer, or "did not find a similar face" |
| `CompareFaces.OtherModesCompareLargest` | src/tools/CompareImages.py:132-180 | any other mode verifies the first largest face of the source against that of the target, with one call |
| `IdentifyFace.IdentifyLines` | src/tools/IdentifyFaceInLPG.py:55-69 | line `k` is result `k` reported against detected face `k` |
| `IdentifyFace.Identify` | src/tools/IdentifyFaceInLPG.py:32-70 | `identify_face_from_group` as an outcome and a call log; its contract is stated by `IdentifyCalls`, `IdentifyRaisesOnExtraResults` and `LinesPairByIndex` |
| `IdentifyFace.ReportResults` | src/tools/IdentifyFaceInLPG.py:55-69 | the loop raises iff there are more results than faces, and otherwise gives the paired lines |
| `IdentifyFace.IdentifyFaceFromGroup` | src/tools/IdentifyFaceInLPG.py:32-70 | the tool's outcome and calls are the modelled ones |
| `IdentifyFace.IdentifyCalls` | src/tools/IdentifyFaceInLPG.py:32-53 | a missing local file makes no call; no face returns after one detection; otherwise all face ids are identified at once, in detection order |
| `IdentifyFace.IdentifyRaisesOnExtraResults` | src/tools/IdentifyFaceInLPG.py:54-70 | `IndexError` iff there are more results than faces; otherwise the lines joined by "\n---\n" |
| `IdentifyFace.LinesPairByIndex` | src/tools/IdentifyFaceInLPG.py:54-69 | line `k` is never the "Detected" line and reports face `k`: its first candidate, or "could not be identified" iff it has none |
| `IdentifyFace.LineShowsOwnBox` | src/tools/IdentifyFaceInLPG.py:49-57 | with distinct ids, line `k` shows the box of face `k` |
| `BlobFolders.FoldersSpec` | src/tools/BlobFolderTools.py:31 | every folder is a directory marker of the walk with its trailing slashes stripped, and every marker yields its folder |
| `BlobFolders.Folders` | src/tools/BlobFolderTools.py:31 | the folder names of a walk; `FoldersSpec` and `FoldersAppend` state what they are and their order |
| `BlobFolders.FoldersAppend` | src/tools/BlobFolderTools.py:31 | folders keep the listing order |
| `BlobFolders.NoFoldersIffNoMarkers` | src/tools/BlobFolderTools.py:33-34 | no folders iff no walked name ends in "/" |
| `BlobFolders.ListFoldersAndChoose` | src/tools/BlobFolderTools.py:14-39 | `list_blob_folders_and_choose` as a reply and a call log; its contract is stated by `ListFoldersOutcome` |
| `BlobFolders.ListFoldersOutcome` | src/tools/BlobFolderTools.py:14-39 | without all three settings nothing is listed; otherwise one walk, and the choice prompt lists the folders iff some name is a marker |
| `BlobFolders.NonDirsSpec` | src/tools/BlobFolderTools.py:71-72 | the file blobs are exactly the names not ending in "/", in listing order |
| `BlobFolders.ItemsFollowNonDirs` | src/tools/BlobFolderTools.py:70-76 | item `k` is the URL entry of file blob `k` |
| `BlobFolders.UrlNameRoundTrip` | src/tools/BlobFolderTools.py:63-74 | the blob name is recovered from its `https://{account}.blob.core.windows.net/{container}/{name}?{sas}` URL |
| `BlobFolders.ListUrls` | src/tools/BlobFolderTools.py:42-77 | `list_public_image_urls` as a listing and a call log; its contract is stated by `ListedUrls` |
| `BlobFolders.CollectItems` | src/tools/BlobFolderTools.py:70-76 | the loop builds the items |
| `BlobFolders.ListPublicImageUrls` | src/tools/BlobFolderTools.py:42-77 | the tool's listing and calls are the modelled ones |
| `BlobFolders.ListedUrls` | src/tools/BlobFolderTools.py:58-77 | one item per file blob, in order; each URL is base, name and token and gives the name back; `urls_txt` is the newline join of the same URLs |
| `BlobFolders.PathJoinSpec` | src/tools/BlobFolderTools.py:111 | `os.path.join` ends with the relative part; it drops the directory iff the relative part is absolute |
| `BlobFolders.PathJoin` | src/tools/BlobFolderTools.py:111 | POSIX `os.path.join` of two parts; its contract is stated by `PathJoinSpec` |
| `BlobFolders.DirName` | src/tools/BlobFolderTools.py:112 | POSIX `os.path.dirname`; its contract is stated by `DirNameEmpty` and `LocalPathHasDir` |
| `BlobFolders.RelPath` | src/tools/BlobFolderTools.py:109-110 | the blob name with the normalized folder prefix removed; its contract is stated by `RelPathRoundTrip` and `TrailingSlashEscapes` |
| `BlobFolders.LastSlashEnd` | src/tools/BlobFolderTools.py:112 | the end of the last "/" of a path |
| `BlobFolders.DirNameEmpty` | src/tools/BlobFolderTools.py:112 | `os.path.dirname` is empty iff the path has no "/" |
| `BlobFolders.RelPathRoundTrip` | src/tools/BlobFolderTools.py:109-110 | the normalized folder followed by the relative path gives back the blob name |
| `BlobFolders.TrailingSlashEscapes` | src/tools/BlobFolderTools.py:109-111 | a folder with a trailing "/" makes the relative path absolute, so the file is written outside the local directory |
| `BlobFolders.FetchBlob` | src/tools/BlobFolderTools.py:107-116 | the loop body for one blob does one fetch step |
| `BlobFolders.Fetch` | src/tools/BlobFolderTools.py:106-116 | the download loop after the first `n` blobs, stopping at the first raise; its contract is stated by `FetchNext`, `StopsAfterRaise`, `FetchedFiles` and `EmptyLocalDirRaises` |
| `BlobFolders.FetchAll` | src/tools/BlobFolderTools.py:106-116 | the loop gives the fetch state after every blob |
| `BlobFolders.StopsAfterRaise` | src/tools/BlobFolderTools.py:112 | once an exception escapes, the state no longer changes |
| `BlobFolders.DownloadBlobFolder` | src/tools/BlobFolderTools.py:80-125 | the tool's outcome and calls are the modelled ones |
| `BlobFolders.Download` | src/tools/BlobFolderTools.py:80-125 | `download_blob_folder_from_container` as an outcome and a call log; its contract is stated by `DownloadMatchesListing` and `EmptyLocalDirRaises` |
| `BlobFolders.LocalPathHasDir` | src/tools/BlobFolderTools.py:111-112 | under a non-empty local directory every local path has a directory part |
| `BlobFolders.FetchedFiles` | src/tools/BlobFolderTools.py:106-116 | with a non-empty local directory nothing raises; file `k` is the local path of file blob `k`, each saved after its directory is made |
| `BlobFolders.DownloadMatchesListing` | src/tools/BlobFolderTools.py:104-125 | the download saves the blobs the URL listing names, in the same order, and reports their count; with none it says "No files found" |
| `BlobFolders.EmptyLocalDirRaises` | src/tools/BlobFolderTools.py:111-112 | with an empty local directory the first file blob directly under the folder makes `os.makedirs("")` raise, after the earlier blobs were saved |

## Left out

- Azure SDK, storage and OpenAI clients are not modelled as code. Their answers are total
  functions passed in (`FaceService`, `IdentifyService`, `BlobStore`, the `detect`
  parameters), and the tools return the list of calls they made.
- Credentials and the environment variables are inputs (`Env`). Where an SDK call would
  fail on a wrong credential, the model does not capture it.
- `os.path.exists` is an input predicate. `os.makedirs` and the file writes are events.
  A path that passes it is taken to open for reading as well.
  Only the raise of `os.makedirs("")` is modelled; blob contents are not (a `Saved` event
  records the blob and its path).
- Paths follow POSIX `os.path` rules only.
- `EnrollFace.ImageStep`, `CompareFaces.Compare`, `IdentifyFace.Identify`,
  `FaceAttrib.GetFaceDetect`: `fileExists` stands for "the path exists and opens for
  reading". An `open(path, "rb")` that fails on an existing path, such as a directory or
  an unreadable file, raises in Python and is not modelled.
- `CompareFaces.CompareImages`: the float comparison `confidence >= identical_threshold`
  is not computed. Each answer carries a precomputed verdict, and confidences are kept
  as their printed text.
- `str()` renderings of faces, rectangles and SDK objects are opaque strings carried by
  each face (`rectText`, `text`).
- `PromptParser.CompareRejects`: the `\b` before "compare" is modelled with ASCII `\w`. A
  non-ASCII letter or digit glued before the keyword (as in "écompare a.jpg with b.jpg")
  counts as a boundary in the model, though not in Python. The model accepts such a
  prompt where Python raises, or where Python goes on to a later occurrence.
- `PromptParser.EnrollRejects`: the same ASCII `\b` before "enroll". A non-ASCII letter
  glued before the keyword is accepted by the model where Python raises or goes on to a
  later occurrence.
- `PromptParser.CompareAccepts`: with a non-ASCII letter glued before an earlier
  "compare", the model captures that occurrence and Python skips it. For "écompare a.jpg
  with b.jpg compare c.jpg with d.jpg", Python captures c.jpg and d.jpg and the model
  captures a.jpg and b.jpg.
- `PromptParser.EnrollAccepts`: likewise for "enroll". Python may capture a later
  occurrence where the model captures the glued one.
- `PromptParser.EnrollNames`: `\w` is modelled as ASCII letters, digits and `_`. Unicode
  letters and digits, which Python also accepts, are not.
- `PromptParser.DetectFlags`: case folding covers ASCII plus the few non-ASCII characters
  that fold onto the letters of the patterns. `str.lower()` is modelled one character at a
  time, lower-casing ASCII letters and the Kelvin sign only. Characters whose lower case is
  longer (such as U+0130) or lies outside ASCII are left unchanged.
- `EnrollFace.EnrollFaceToGroup`: the training poller's wait is left out, since its
  termination depends on the service. Training is one event after each added face.
- The exception texts of `FileNotFoundError` and `IndexError` are fixed strings. The
  exception types are not modelled.
- `PromptDispatch.DispatchOutcome`: `import_module` and `getattr` are one boolean input
  saying whether the tool is found. Module import side effects are not modelled.
- Concurrent access to the pending-deletion dictionary is not modelled; calls are
  sequential.
- `src/tools/OpensetFaceAttrib.py` is not part of this model: it uses float dilation,
  image crops, HTTP download and a chat completion.
- `src/tools/ListLPGs.py` is not part of this model, since its paginated listing depends
  on the service.
- `src/tools/CreateLPG.py`, `src/tools/DeleteLPG.py`, `src/tools/DeletePersonFromLPG.py`
  and `src/tools/ListPersonsInLPG.py` are thin wrappers with no logic of their own.
- `src/mcpServer.py` and the bridge in `bridge/server/mcp-bridge.ts` are transport plumbing.
- `src/tools/utils/_enums.py` enters only through the message texts it supplies.
- `dispatch_prompt_compare` and `dispatch_prompt_enroll` are imported by the live tests
  but do not exist in `src/prompt_utils/prompt_dispatch.py`, so they are not modelled.
