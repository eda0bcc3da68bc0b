/**
 * `dispatch_prompt_detect` of src/prompt_utils/prompt_dispatch.py: parse a
 * detect prompt, look the detect tool up, and call it with the parsed
 * fields as keyword arguments. The tool itself is a parameter, so the
 * result is whatever the tool returns for those arguments.
 */
module PromptDispatch {
  import opened Wrappers
  import opened Text
  import opened PromptParser
  import opened FaceAttrib

  /**
   * How a dispatch ends: the parser's `ValueError`, the tool module or
   * function missing at lookup, or the tool's own result.
   */
  datatype Dispatched<R> = ParseFailed(message: string) | ToolMissing | Called(args: DetectArgs, result: R)

  /** The keyword arguments built from a parsed prompt. */
  function ToArgs(d: ParsedDetect): DetectArgs
  {
    DetectArgs(Some(d.filePath), d.isUrl, d.returnHeadPose, d.returnGlasses, d.returnOcclusion,
               d.returnBlur, d.returnExposure, d.returnMask, d.returnQualityForRecognition,
               d.returnAge, d.returnLandmarks)
  }

  /**
   * `dispatch_prompt_detect`: the prompt is parsed before the tool is
   * looked up; `toolFound` says whether `import_module` and `getattr`
   * succeed, and `tool` is `get_face_dect`.
   */
  function DispatchDetect<R>(prompt: string, toolFound: bool, tool: DetectArgs -> R): Dispatched<R>
  {
    match ParseDetect(prompt)
    case Err(m) => ParseFailed(m)
    case Ok(d) => if toolFound then Called(ToArgs(d), tool(ToArgs(d))) else ToolMissing
  }

  /**
   * A prompt the parser rejects ends the dispatch with the parser's error,
   * before and whatever the lookup; otherwise the lookup decides between a
   * missing tool and exactly one call.
   */
  lemma DispatchOutcome<R>(prompt: string, toolFound: bool, tool: DetectArgs -> R)
    ensures ParseDetect(prompt).Err? <==> DispatchDetect(prompt, toolFound, tool).ParseFailed?
    ensures ParseDetect(prompt).Err? ==>
              DispatchDetect(prompt, toolFound, tool) == ParseFailed(DetectNoImage)
    ensures ParseDetect(prompt).Ok? ==>
              (DispatchDetect(prompt, toolFound, tool).Called? <==> toolFound)
    ensures DispatchDetect(prompt, toolFound, tool).Called? ==>
              DispatchDetect(prompt, toolFound, tool).result == tool(DispatchDetect(prompt, toolFound, tool).args)
  {
    DetectFailsWithoutImage(prompt);
  }

  /**
   * The call passes every parsed field under its own keyword: the path is
   * always given, and each flag reaches the tool unchanged.
   */
  lemma DispatchPassesFields<R>(prompt: string, tool: DetectArgs -> R)
    requires ParseDetect(prompt).Ok?
    ensures var d := ParseDetect(prompt).value; var c := DispatchDetect(prompt, true, tool);
      c.Called?
      && c.args.filePath == Some(d.filePath) && c.args.isUrl == d.isUrl
      && c.args.returnHeadPose == d.returnHeadPose && c.args.returnGlasses == d.returnGlasses
      && c.args.returnOcclusion == d.returnOcclusion && c.args.returnBlur == d.returnBlur
      && c.args.returnExposure == d.returnExposure && c.args.returnMask == d.returnMask
      && c.args.returnQualityForRecognition == d.returnQualityForRecognition
      && c.args.returnAge == d.returnAge && c.args.returnLandmarks == d.returnLandmarks
  {
  }

  /**
   * Through the dispatcher the detect tool always receives a path, and it
   * asks the service for glasses and mask only: glasses exactly when the
   * lower-cased prompt mentions "glasses", mask exactly when it mentions
   * "mask", glasses first; landmarks are never asked for.
   */
  lemma DispatchedAttributes<R>(prompt: string, tool: DetectArgs -> R)
    requires ParseDetect(prompt).Ok?
    ensures var c := DispatchDetect(prompt, true, tool); var lower := LowerString(Strip(prompt));
      c.Called? && c.args.filePath.Some? && !c.args.returnLandmarks
      && (forall a :: a in AttributeList(c.args) <==>
            (a == Glasses && Contains(lower, "glasses")) || (a == Mask && Contains(lower, "mask")))
      && (Contains(lower, "glasses") && Contains(lower, "mask") ==> AttributeList(c.args) == [Glasses, Mask])
  {
    var c := DispatchDetect(prompt, true, tool);
    DetectFlags(prompt);
    AttributeListSpec(c.args);
    var lower := LowerString(Strip(prompt));
    if Contains(lower, "glasses") && Contains(lower, "mask") {
      var l := AttributeList(c.args);
      assert Glasses in l && Mask in l;
      FixedOrderUnique(l, [Glasses, Mask]);
    }
  }
}
