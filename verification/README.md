# Hugging Face adapter: prompt encoding, answer decoding, simulated streaming

This project models, in Dafny, the language-model adapter of `lib/ai/huggingface.ts`.
The adapter turns a chat conversation into a plain completion prompt for a Hugging Face text-generation endpoint.
It turns the endpoint's answer into the provider-interface result of the AI SDK (version 2 of the language-model interface).
`doStream` makes no streaming request: it generates the answer once and replays it word by word.

The model keeps the adapter's four pure steps and composes them the way `doGenerate` and `doStream` do:

- **Prompt encoder** (`Prompt`). Each message becomes one line: a role label (`Human:`, `Assistant:`, `System:`, `Tool:`), one space, then the body.
  - For a system message the body is its string content.
  - For the other roles the body is the parts' renderings joined with single spaces.
  - In a user or assistant message, text parts are kept verbatim and any other part becomes `[File]`.
  - In a tool message, a tool result becomes its serialised output and any other part becomes `[Tool Result]`.
  - A message with an unrecognised role renders as the empty string and is dropped.
  - The lines are joined with newlines, and `\nAssistant:` is appended.
- **Parameters** (`Parameters`). JavaScript's `||` falls back to a default for a missing or zero option. `max_new_tokens` is `min(maxOutputTokens || 150, 512)`.
- **Decoder** (`Generate`). The generated text is trimmed the way `String.prototype.trim` does.
  - A missing or blank answer becomes a fixed apology.
  - A failed call becomes a second fixed apology.
  - Either way the result is one text item, with finish reason `stop`, no usage counts and no warnings.
- **Stream simulator** (`Stream`). The final text is split at every space.
  - Each word becomes one text delta, and every delta but the last gets its space back.
  - Exactly one `finish` event follows the deltas.

Outside collaborators are parameters:

- The inference endpoint is `hf: HfRequest -> Outcome`, where `Outcome` is `Failed | Responded(Option<string>)`.
- `JSON.stringify` of tool outputs is `stringify: O -> string`, where `O` is the tool-output type.

Supporting modules:

- `Strings` holds `join` and `split` with a one-character separator. Joining the pieces of a split restores the string. Splitting a join gives the pieces back when there is at least one piece and no piece contains the separator.
- `Whitespace` holds ECMAScript's `trim`. Its white-space set is written out by code point (sections 12.2 and 12.3 of ECMA-262).

Three consequences of the code that are easy to misread:

- `||` rather than `??` (line 70): a request of 0 also becomes 150. A negative request passes through `Math.min` unchanged (`MaxNewTokens` states this case).
- `doStream` obtains its text from `doGenerate` (line 122), which catches every failure from line 25 on, the endpoint call included (catch at line 95). So when `doStream` is called as a method of the model object, a failed call streams the error apology word by word (`DoStream`), and the rethrow at lines 159-161 is never reached. It is reached only when `doStream` is called detached from the object, so that `this.doGenerate` itself throws; the model does not represent that call.
- Splitting at single spaces (line 124) and giving every word but the last its space back (line 130) loses nothing: concatenating the deltas restores the text exactly, runs of spaces included (`SimulateStream`, `JoinSplit`).

## Model

| member | source | states |
|---|---|---|
| Prompt.RenderChatParts | lib/ai/huggingface.ts:32-46 | one rendering per part of a user or assistant message, in order: a text part verbatim, any other part (a tool result included) `[File]` |
| Prompt.RenderToolParts | lib/ai/huggingface.ts:54-59 | one rendering per part of a tool message, in order: a tool result as its serialised output, any other part (a text part included) `[Tool Result]` |
| Prompt.RenderMessage | lib/ai/huggingface.ts:29-61 | a message renders as the empty string exactly when its role is unrecognised; otherwise as its role's label, one space, and its body, with a system message's content unchanged |
| Prompt.RenderAll | lib/ai/huggingface.ts:28-62 | one rendering per message, in conversation order, each the message's own rendering |
| Prompt.DropEmpty | lib/ai/huggingface.ts:63 | a line is kept exactly when it occurs in the input and is non-empty; when no line is empty, all are kept unchanged and in order |
| Prompt.DropEmptyAppend | lib/ai/huggingface.ts:63 | filtering a concatenation filters each half and keeps their order, so with the one-line cases every non-empty line is kept, in order, and each empty line is dropped |
| Prompt.EncodePrompt | lib/ai/huggingface.ts:28-64 | every prompt ends with a newline followed by `Assistant:`, whatever the conversation |
| Prompt.LinesAreKnownMessages | lib/ai/huggingface.ts:28-63 | the lines kept in the prompt are the renderings of the recognised messages, one per message, in conversation order |
| Prompt.NoKnownMessages | lib/ai/huggingface.ts:61-64 | a conversation with no recognised message, the empty one included, encodes to exactly `\nAssistant:` |
| Prompt.EncodeLines | lib/ai/huggingface.ts:28-64 | when no message renders with a newline, splitting the prompt at newlines gives one line per recognised message in order, then `Assistant:`; with none, an empty first line |
| Prompt.LabelIdentifiesRole | lib/ai/huggingface.ts:30-60 | the four labels are unambiguous: reading the label at the head of a rendered line gives back the message's role |
| Prompt.PartsSpaceSeparated | lib/ai/huggingface.ts:32-59 | parts are separated by exactly one space: when no rendering contains a space, splitting the body at spaces gives back the renderings |
| Prompt.SingleLineMessage | lib/ai/huggingface.ts:30-60 | a message whose texts, system content and serialised outputs have no newline renders on a single line |
| Prompt.EncodeGreeting | lib/ai/huggingface.ts:28-64 | a lone user "Hi" encodes to `Human: Hi\nAssistant:` |
| Prompt.EncodeInstructedGreeting | lib/ai/huggingface.ts:28-64 | a system "Be terse." then a user "Hi" encodes to `System: Be terse.\nHuman: Hi\nAssistant:` |
| Parameters.OrDefault | lib/ai/huggingface.ts:70-74 | the falsy fallback yields the default `d` exactly when `v` is missing, zero or already `d`; otherwise it yields `v` |
| Parameters.MaxNewTokens | lib/ai/huggingface.ts:70 | the budget never exceeds 512; it is 150 when nothing or 0 is requested; a request in 1..512 is kept; a larger one is capped at 512; a negative one passes through |
| Parameters.MaxNewTokensRange | lib/ai/huggingface.ts:70 | the budget is positive exactly when the request is missing or non-negative; a larger positive request never gets a smaller budget |
| Parameters.BuildParameters | lib/ai/huggingface.ts:69-75 | the parameters carry the capped budget; temperature and top_p are never zero and are either the caller's value or 0.7 and 0.95; sampling is on and the prompt is not echoed back |
| Generate.BuildRequest | lib/ai/huggingface.ts:66-76 | the request names the adapter's model; its input is the encoded conversation, which ends in the assistant cue; its parameters are the defaulted ones, with a budget of at most 512 |
| Generate.ResultText | lib/ai/huggingface.ts:78-101 | a failed call yields the error apology; a non-blank answer yields that answer trimmed; a missing or blank answer yields the empty-answer apology |
| Generate.DecodeResponse | lib/ai/huggingface.ts:78-115 | success and failure share one shape: exactly one text item, which is never empty and never begins or ends with white space, finish reason `stop`, all three usage counts undefined, no warnings |
| Generate.ApologiesTrimmed | lib/ai/huggingface.ts:78-101 | both fixed apologies begin and end with a visible character |
| Generate.ResultTextWellFormed | lib/ai/huggingface.ts:78-101 | the result text is never empty and is unchanged by trimming, whatever the endpoint answered |
| Generate.ResultTextExample | lib/ai/huggingface.ts:78 | the answer `"  Hello there  "` yields `"Hello there"` |
| Generate.DoGenerate | lib/ai/huggingface.ts:25-116 | the endpoint is asked about the encoded conversation; its non-blank answer comes back trimmed, a missing or blank answer as the empty-answer apology, a failure as the error apology; the call never fails, and its result has one non-empty trimmed text item, finish reason `stop`, no usage counts and no warnings |
| Whitespace.Trim | lib/ai/huggingface.ts:78 | the result has no white space at either end, and it is empty exactly when the input is all white space |
| Whitespace.TrimPadded | lib/ai/huggingface.ts:78 | surrounding a trimmed string with any white space and trimming gives that string back |
| Whitespace.TrimDecompose | lib/ai/huggingface.ts:78 | every string is its trimmed form with white space before and after it |
| Whitespace.TrimIdempotent | lib/ai/huggingface.ts:78 | trimming twice is trimming once |
| Strings.JoinShape | lib/ai/huggingface.ts:37-64 | `Array.prototype.join` opens with the first piece, closes with the last, and is as long as all pieces plus one separator per neighbouring pair |
| Strings.Split | lib/ai/huggingface.ts:124 | `split(' ')` yields one more piece than the text has spaces, and no piece contains a space |
| Strings.JoinSplit | lib/ai/huggingface.ts:124-130 | joining the split pieces with the separator restores the original text exactly |
| Stream.StreamReplaysResult | lib/ai/huggingface.ts:122-123 | the stream replays exactly the text the one-shot call returns for every endpoint outcome, so it is never empty |
| Stream.SimulateStream | lib/ai/huggingface.ts:124-147 | the replay has one delta more than the text has spaces, then one `finish` event with reason `stop` and no usage; every delta but the last is a space-free word followed by one space; the last delta has no space; the deltas concatenate back to the text; a text not opening with a space starts with a non-empty delta |
| Stream.DoStream | lib/ai/huggingface.ts:119-163 | the stream never fails; its deltas concatenate to the text `doGenerate` returns; every delta but the last is a word followed by one space, and the last has no space; it ends with exactly one `finish` event; its first delta is non-empty |

## Left out

- The `HfInference` client and its construction, including the fallback to the `HUGGINGFACE_API_KEY` environment variable (line 17): this is foreign I/O. The endpoint is the parameter `hf`.
- The returned model object's metadata (`specificationVersion`, `provider`, `modelId`, `supportedUrls`, lines 20-23) and the `FREE_MODELS` table (lines 168-175): plain data.
- `lib/ai/providers.ts`: registry wiring of external SDK factories, with no logic of its own.
- `console.error` logging (lines 96 and 160): side effects only.
- `ReadableStream`, its controller, the 30 ms pause between deltas and the async machinery (lines 126-154): runtime plumbing. The stream is the finite sequence of its events.
- Consumer cancellation and the controller's error path (lines 150-152): once the consumer cancels the stream, `controller.enqueue` throws and the replay ends early. This is stream plumbing; the model describes the stream a consumer that reads to the end receives.
- A `doStream` called detached from the model object (so that `this.doGenerate` throws at line 122 and the rethrow at lines 159-161 runs): the model composes the two calls directly.
- `JSON.stringify` is the total parameter `stringify`. An output it maps to `undefined` joins as the empty string, which `stringify` may return. In the code, a serialisation that throws (a cyclic or BigInt output) would be caught and give the error apology. The model does not represent that case.
- Number semantics: token requests are integers, and temperature and top_p are exact reals. NaN, fractional token budgets and floating-point rounding are not modelled.
- Strings are sequences of Unicode code points. JavaScript's `split` and `trim` work on UTF-16 code units. No separator or white-space character is a surrogate, so this makes no difference to the properties stated.
- The interface's other content kinds are collapsed. Message parts other than text and tool results become `OtherPart`, and result content other than text becomes `OtherContent`. The encoder and `doStream` treat all of them alike.
