/** `doStream`: no streaming request is made; the adapter generates the whole
    answer once and then replays it word by word as text deltas, closed by a
    single finish event. The pacing delay between deltas is left out; the
    stream is the finite sequence of its events. */
module Stream {
  import opened Strings
  import opened Whitespace
  import Generate

  datatype StreamPart =
    | TextDelta(textDelta: string)
    | Finish(finishReason: Generate.FinishReason, usage: Generate.Usage)

  /** What a consumer reassembles: the deltas concatenated in order. */
  function DeltaText(events: seq<StreamPart>): string
  {
    if |events| == 0 then ""
    else
      var last := events[|events| - 1];
      DeltaText(events[..|events| - 1]) + (if last.TextDelta? then last.textDelta else "")
  }

  /** A word and the single space that separated it from the next one. */
  predicate WordThenSpace(d: string)
  {
    |d| >= 1 && d[|d| - 1] == ' ' && ' ' !in d[..|d| - 1]
  }

  /** The `i`th delta: the `i`th word, with a space unless it is the last. */
  function Delta(words: seq<string>, i: nat): string
    requires i < |words|
  {
    words[i] + (if i < |words| - 1 then " " else "")
  }

  /** The text a stream replays: the first content item's text when that item
      is text, the empty string otherwise. */
  function StreamText(r: Generate.GenerateResult): string
  {
    if |r.content| >= 1 && r.content[0].TextContent? then r.content[0].text else ""
  }

  /** The stream replays exactly the text the one-shot call would return, for
      every endpoint outcome: the apologies included, never the empty string. */
  lemma StreamReplaysResult(outcome: Generate.Outcome)
    ensures StreamText(Generate.DecodeResponse(outcome)) == Generate.ResultText(outcome)
    ensures StreamText(Generate.DecodeResponse(outcome)) != ""
  {
  }

  /** The replay of `text`: one delta per space-separated word, then one
      finish event. Concatenating the deltas gives `text` back exactly, and
      there is one delta more than `text` has spaces. */
  method SimulateStream(text: string) returns (events: seq<StreamPart>)
    ensures |events| == Count(text, ' ') + 2
    ensures forall k :: 0 <= k < |events| - 1 ==> events[k].TextDelta?
    ensures events[|events| - 1] == Finish(Generate.Stop, Generate.UnknownUsage)
    ensures forall k :: 0 <= k < |events| - 2 ==> WordThenSpace(events[k].textDelta)
    ensures ' ' !in events[|events| - 2].textDelta
    ensures DeltaText(events) == text
    ensures text != "" && text[0] != ' ' ==> events[0].textDelta != ""
  {
    var words := Split(text, ' ');
    events := [];
    for i := 0 to |words|
      invariant |events| == i
      invariant forall k :: 0 <= k < i ==> events[k] == TextDelta(Delta(words, k))
      invariant DeltaText(events) + Rest(words, i) == Join(words, " ")
    {
      var word := Delta(words, i);
      RestStep(words, i);
      assert DeltaText(events + [TextDelta(word)]) == DeltaText(events) + word by {
        assert (events + [TextDelta(word)])[..|events|] == events;
      }
      events := events + [TextDelta(word)];
    }
    JoinSplit(text, ' ');
    if text != "" && text[0] != ' ' {
      FirstWordVisible(text);
    }
    forall k | 0 <= k < |words| - 1
      ensures WordThenSpace(Delta(words, k))
    {
      assert Delta(words, k)[..|words[k]|] == words[k];
    }
    assert DeltaText(events + [Finish(Generate.Stop, Generate.UnknownUsage)]) == DeltaText(events) by {
      assert (events + [Finish(Generate.Stop, Generate.UnknownUsage)])[..|events|] == events;
    }
    events := events + [Finish(Generate.Stop, Generate.UnknownUsage)];
  }

  /** The part of the joined words not yet replayed after `i` deltas. */
  function Rest(words: seq<string>, i: nat): string
    requires i <= |words|
  {
    if i < |words| then Join(words[i..], " ") else ""
  }

  lemma RestStep(words: seq<string>, i: nat)
    requires i < |words|
    ensures Rest(words, i) == Delta(words, i) + Rest(words, i + 1)
  {
    var tail := words[i..];
    if i < |words| - 1 {
      assert tail[1..] == words[i + 1..];
    } else {
      assert tail == [words[i]];
    }
  }

  /** A text that does not open with a space opens with a non-empty word. */
  lemma FirstWordVisible(text: string)
    requires text != "" && text[0] != ' '
    ensures Split(text, ' ')[0] != ""
  {
  }

  /** The whole streaming call: one generation, then its replay. Because the
      generation never fails, neither does the stream: an endpoint failure
      arrives as the apology, word by word. The first delta is never empty. */
  method DoStream<O>(
    modelId: string,
    options: Generate.CallOptions<O>,
    stringify: O -> string,
    hf: Generate.HfRequest -> Generate.Outcome
  ) returns (events: seq<StreamPart>)
    ensures var text := Generate.DoGenerate(modelId, options, stringify, hf).content[0].text;
      && DeltaText(events) == text
      && |events| == Count(text, ' ') + 2
    ensures forall k :: 0 <= k < |events| - 1 ==> events[k].TextDelta?
    ensures events[|events| - 1] == Finish(Generate.Stop, Generate.UnknownUsage)
    ensures events[0].TextDelta? && events[0].textDelta != ""
    ensures forall k :: 0 <= k < |events| - 2 ==> WordThenSpace(events[k].textDelta)
    ensures ' ' !in events[|events| - 2].textDelta
  {
    var result := Generate.DoGenerate(modelId, options, stringify, hf);
    var text := StreamText(result);
    assert IsWhitespace(' ');
    events := SimulateStream(text);
  }
}
