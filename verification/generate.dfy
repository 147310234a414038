/** `doGenerate`: encode the conversation, call the inference endpoint once,
    and map its answer (or its failure) to a one-shot result. The endpoint is a
    parameter `hf` from request to outcome; whatever it does, the call never
    fails: a failure becomes an apology. */
module Generate {
  import opened Wrappers
  import opened Whitespace
  import Prompt
  import Parameters

  /** The caller's options that the adapter reads. */
  datatype CallOptions<O> = CallOptions(
    prompt: seq<Prompt.Message<O>>,
    maxOutputTokens: Option<int>,
    temperature: Option<real>,
    topP: Option<real>)

  /** What is sent to the text-generation endpoint. */
  datatype HfRequest = HfRequest(model: string, inputs: string, parameters: Parameters.HfParameters)

  /** What comes back: a failure of any kind (network, authorisation, a
      malformed answer, an exception while preparing the call), or an answer
      whose `generated_text` may be missing. */
  datatype Outcome = Failed | Responded(generatedText: Option<string>)

  datatype Content = TextContent(text: string) | OtherContent

  datatype FinishReason = Stop | Length | ContentFilter | ToolCalls | Error | Other | Unknown

  /** Token counts; the endpoint reports none, so every field stays undefined. */
  datatype Usage = Usage(inputTokens: Option<nat>, outputTokens: Option<nat>, totalTokens: Option<nat>)

  const UnknownUsage: Usage := Usage(None, None, None)

  datatype GenerateResult = GenerateResult(
    content: seq<Content>,
    finishReason: FinishReason,
    usage: Usage,
    warnings: seq<string>)

  /** The two fixed answers share their opening words. */
  const ApologyLead: string := "I apologize, but "
  const EmptyApology: string := ApologyLead + "I could not generate a response."
  const ErrorApology: string := ApologyLead + "I encountered an error. Please try again."

  /** The request for a conversation: the encoded prompt as input, the model
      the adapter was built for, and the defaulted and capped parameters. */
  function BuildRequest<O>(modelId: string, options: CallOptions<O>, stringify: O -> string): (req: HfRequest)
    ensures req.model == modelId
    ensures req.inputs == Prompt.EncodePrompt(options.prompt, stringify)
    ensures var cue := Prompt.Cue;
      |cue| <= |req.inputs| && req.inputs[|req.inputs| - |cue|..] == cue
    ensures req.parameters.maxNewTokens <= Parameters.MaxNewTokensCap
    ensures req.parameters == Parameters.BuildParameters(options.maxOutputTokens, options.temperature, options.topP)
  {
    HfRequest(
      modelId,
      Prompt.EncodePrompt(options.prompt, stringify),
      Parameters.BuildParameters(options.maxOutputTokens, options.temperature, options.topP))
  }

  /** The text the result carries: the trimmed generated text, unless that is
      missing or blank, and an apology for a failed call. */
  function ResultText(outcome: Outcome): (text: string)
    ensures outcome.Failed? ==> text == ErrorApology
    ensures outcome.Responded? && outcome.generatedText.Some? && Trim(outcome.generatedText.value) != ""
      ==> text == Trim(outcome.generatedText.value)
    ensures outcome.Responded? && (outcome.generatedText.None? || AllWhitespace(outcome.generatedText.value))
      ==> text == EmptyApology
  {
    match outcome
    case Failed => ErrorApology
    case Responded(None) => EmptyApology
    case Responded(Some(g)) => if Trim(g) == "" then EmptyApology else Trim(g)
  }

  /** Success and failure have the same shape: exactly one text item, finish
      reason "stop", no token counts, no warnings. The text is never empty and
      never begins or ends with white space, whatever the endpoint answered. */
  function DecodeResponse(outcome: Outcome): (r: GenerateResult)
    ensures |r.content| == 1 && r.content[0] == TextContent(ResultText(outcome))
    ensures r.content[0].text != "" && IsTrimmed(r.content[0].text)
    ensures r.finishReason == Stop
    ensures r.usage == UnknownUsage
    ensures r.warnings == []
  {
    ResultTextWellFormed(outcome);
    GenerateResult([TextContent(ResultText(outcome))], Stop, UnknownUsage, [])
  }

  lemma ApologiesTrimmed()
    ensures IsTrimmed(EmptyApology) && IsTrimmed(ErrorApology)
  {
    assert EmptyApology[0] == 'I' && EmptyApology[|EmptyApology| - 1] == '.';
    assert ErrorApology[0] == 'I' && ErrorApology[|ErrorApology| - 1] == '.';
  }

  /** The result text is never empty and never begins or ends with white
      space, whatever the endpoint answered. */
  lemma ResultTextWellFormed(outcome: Outcome)
    ensures ResultText(outcome) != ""
    ensures Trim(ResultText(outcome)) == ResultText(outcome)
  {
    match outcome
    case Failed =>
      ApologiesTrimmed();
      TrimmedFixpoint(ErrorApology);
    case Responded(None) =>
      ApologiesTrimmed();
      TrimmedFixpoint(EmptyApology);
    case Responded(Some(g)) =>
      if Trim(g) == "" {
        ApologiesTrimmed();
        TrimmedFixpoint(EmptyApology);
      } else {
        TrimIdempotent(g);
      }
  }

  /** Padding around a generated answer is dropped. */
  lemma ResultTextExample()
    ensures ResultText(Responded(Some("  Hello there  "))) == "Hello there"
  {
    var core := "Hello there";
    assert "  Hello there  " == "  " + core + "  ";
    assert AllWhitespace("  ");
    assert core[0] == 'H' && core[|core| - 1] == 'e';
    TrimPadded("  ", core, "  ");
  }

  /** One call: encode, ask the endpoint once, decode. Total: no outcome of the
      endpoint makes it fail. The text is the endpoint's trimmed answer to the
      encoded conversation, or the error apology when that call fails, or the
      empty-answer apology when the answer is missing or blank. */
  function DoGenerate<O>(modelId: string, options: CallOptions<O>, stringify: O -> string, hf: HfRequest -> Outcome): (r: GenerateResult)
    ensures |r.content| == 1 && r.content[0].TextContent?
    ensures r.content[0].text != "" && IsTrimmed(r.content[0].text)
    ensures r.finishReason == Stop && r.usage == UnknownUsage && r.warnings == []
    ensures var o := hf(HfRequest(modelId, Prompt.EncodePrompt(options.prompt, stringify),
                                  Parameters.BuildParameters(options.maxOutputTokens, options.temperature, options.topP)));
      && (o.Failed? ==> r.content[0].text == ErrorApology)
      && (o.Responded? && o.generatedText.Some? && !AllWhitespace(o.generatedText.value)
          ==> r.content[0].text == Trim(o.generatedText.value))
      && (o.Responded? && (o.generatedText.None? || AllWhitespace(o.generatedText.value))
          ==> r.content[0].text == EmptyApology)
  {
    DecodeResponse(hf(BuildRequest(modelId, options, stringify)))
  }
}
