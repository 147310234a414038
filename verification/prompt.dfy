/** The prompt encoder of `doGenerate`: a conversation of role-tagged messages
    flattened into one completion prompt, one labelled line per message, ending
    with the assistant cue that makes the completion model answer as the
    assistant. */
module Prompt {
  import opened Wrappers
  import opened Strings

  /** One part of a user, assistant or tool message. `O` is the tool output,
      which the encoder only ever hands to `JSON.stringify`; `OtherPart` stands
      for every part kind the encoder has no text for (files, images, reasoning,
      tool calls). */
  datatype Part<O> =
    | TextPart(text: string)
    | ToolResultPart(output: O)
    | OtherPart

  /** A message of the conversation. The role decides the shape of the
      content: a plain string for system messages, a list of parts for the
      others. `UnrecognisedMessage` is a message whose role is none of the
      four the encoder knows. */
  datatype Message<O> =
    | SystemMessage(content: string)
    | UserMessage(parts: seq<Part<O>>)
    | AssistantMessage(parts: seq<Part<O>>)
    | ToolMessage(parts: seq<Part<O>>)
    | UnrecognisedMessage

  datatype Role = System | User | Assistant | Tool

  function RoleOf<O>(m: Message<O>): Option<Role>
  {
    match m
    case SystemMessage(_) => Some(System)
    case UserMessage(_) => Some(User)
    case AssistantMessage(_) => Some(Assistant)
    case ToolMessage(_) => Some(Tool)
    case UnrecognisedMessage => None
  }

  /** The lexical role marker written at the head of a message's line. */
  function Label(r: Role): string
  {
    match r
    case User => "Human:"
    case Assistant => "Assistant:"
    case System => "System:"
    case Tool => "Tool:"
  }

  const FilePlaceholder: string := "[File]"
  const ToolResultPlaceholder: string := "[Tool Result]"

  /** What ends every prompt: a fresh line holding the assistant's label. */
  const Cue: string := "\n" + Label(Assistant)

  /** A part of a user or assistant message: text verbatim, anything else the
      file placeholder (a tool result included). */
  function RenderChatPart<O>(p: Part<O>): string
  {
    if p.TextPart? then p.text else FilePlaceholder
  }

  /** A part of a tool message: a tool result as its serialised output,
      anything else the tool-result placeholder (a text part included). */
  function RenderToolPart<O>(p: Part<O>, stringify: O -> string): string
  {
    if p.ToolResultPart? then stringify(p.output) else ToolResultPlaceholder
  }

  function RenderChatParts<O>(parts: seq<Part<O>>): (pieces: seq<string>)
    ensures |pieces| == |parts|
    ensures forall i :: 0 <= i < |parts| ==> pieces[i] == RenderChatPart(parts[i])
  {
    if |parts| == 0 then [] else [RenderChatPart(parts[0])] + RenderChatParts(parts[1..])
  }

  function RenderToolParts<O>(parts: seq<Part<O>>, stringify: O -> string): (pieces: seq<string>)
    ensures |pieces| == |parts|
    ensures forall i :: 0 <= i < |parts| ==> pieces[i] == RenderToolPart(parts[i], stringify)
  {
    if |parts| == 0 then [] else [RenderToolPart(parts[0], stringify)] + RenderToolParts(parts[1..], stringify)
  }

  /** Everything a message's line holds after its label and one space. */
  function Body<O>(m: Message<O>, stringify: O -> string): string
  {
    match m
    case SystemMessage(content) => content
    case UserMessage(parts) => Join(RenderChatParts(parts), " ")
    case AssistantMessage(parts) => Join(RenderChatParts(parts), " ")
    case ToolMessage(parts) => Join(RenderToolParts(parts, stringify), " ")
    case UnrecognisedMessage => ""
  }

  /** One message as one line: its label, a space, its body. A message with an
      unrecognised role, and only such a message, renders as the empty string. */
  function RenderMessage<O>(m: Message<O>, stringify: O -> string): (line: string)
    ensures line == "" <==> RoleOf(m).None?
    ensures RoleOf(m).Some? ==>
      var head := Label(RoleOf(m).value) + " ";
      |head| <= |line| && line[..|head|] == head && line[|head|..] == Body(m, stringify)
  {
    match RoleOf(m)
    case None => ""
    case Some(r) => Label(r) + " " + Body(m, stringify)
  }

  /** One rendering per message, in conversation order. */
  function RenderAll<O>(msgs: seq<Message<O>>, stringify: O -> string): (lines: seq<string>)
    ensures |lines| == |msgs|
    ensures forall i :: 0 <= i < |msgs| ==> lines[i] == RenderMessage(msgs[i], stringify)
  {
    if |msgs| == 0 then [] else [RenderMessage(msgs[0], stringify)] + RenderAll(msgs[1..], stringify)
  }

  /** The lines that are not empty, in their original order (`filter(Boolean)`). */
  function DropEmpty(lines: seq<string>): (kept: seq<string>)
    ensures |kept| <= |lines|
    ensures forall i :: 0 <= i < |kept| ==> kept[i] != ""
    ensures forall s :: s in kept <==> s in lines && s != ""
    ensures (forall i :: 0 <= i < |lines| ==> lines[i] != "") ==> kept == lines
  {
    if |lines| == 0 then []
    else if lines[0] == "" then DropEmpty(lines[1..])
    else [lines[0]] + DropEmpty(lines[1..])
  }

  /** Filtering distributes over concatenation: the lines of `a` that survive
      come first, in their order, then those of `b`. With the one-line cases
      (an empty line vanishes, any other stays) this fixes `filter(Boolean)`
      for every input. */
  lemma {:induction false} DropEmptyAppend(a: seq<string>, b: seq<string>)
    ensures DropEmpty(a + b) == DropEmpty(a) + DropEmpty(b)
    decreases |a|
  {
    if |a| > 0 {
      assert (a + b)[1..] == a[1..] + b;
      DropEmptyAppend(a[1..], b);
    } else {
      assert a + b == b;
    }
  }

  /** The whole prompt: the non-empty renderings joined by newlines, then the
      assistant cue. It ends with the cue whatever the conversation, even an
      empty one. */
  function EncodePrompt<O>(msgs: seq<Message<O>>, stringify: O -> string): (prompt: string)
    ensures |Cue| <= |prompt| && prompt[|prompt| - |Cue|..] == Cue
  {
    Join(DropEmpty(RenderAll(msgs, stringify)), "\n") + Cue
  }

  /** The messages whose role the encoder recognises, in order. */
  function Known<O>(msgs: seq<Message<O>>): (known: seq<Message<O>>)
    ensures |known| <= |msgs|
    ensures forall i :: 0 <= i < |known| ==> RoleOf(known[i]).Some?
  {
    if |msgs| == 0 then []
    else if RoleOf(msgs[0]).None? then Known(msgs[1..])
    else [msgs[0]] + Known(msgs[1..])
  }

  /** The lines kept in the prompt are exactly the renderings of the
      recognised messages, one each, in conversation order. */
  lemma {:induction false} LinesAreKnownMessages<O>(msgs: seq<Message<O>>, stringify: O -> string)
    ensures var lines := DropEmpty(RenderAll(msgs, stringify));
      && |lines| == |Known(msgs)|
      && forall i :: 0 <= i < |lines| ==> lines[i] == RenderMessage(Known(msgs)[i], stringify)
    decreases |msgs|
  {
    if |msgs| > 0 {
      var all := RenderAll(msgs, stringify);
      var rest := RenderAll(msgs[1..], stringify);
      assert all == [RenderMessage(msgs[0], stringify)] + rest;
      assert all[1..] == rest;
      LinesAreKnownMessages(msgs[1..], stringify);
      var restLines := DropEmpty(rest);
      var restKnown := Known(msgs[1..]);
      if RoleOf(msgs[0]).Some? {
        var lines := DropEmpty(all);
        var known := Known(msgs);
        assert lines == [all[0]] + restLines;
        assert known == [msgs[0]] + restKnown;
        forall i | 0 <= i < |lines|
          ensures lines[i] == RenderMessage(known[i], stringify)
        {
          if i > 0 {
            assert lines[i] == restLines[i - 1];
            assert known[i] == restKnown[i - 1];
          }
        }
      }
    }
  }

  /** An empty conversation, or one of unrecognised roles only, still yields
      the cue on a line of its own. */
  lemma NoKnownMessages<O>(msgs: seq<Message<O>>, stringify: O -> string)
    requires |Known(msgs)| == 0
    ensures EncodePrompt(msgs, stringify) == Cue
  {
    LinesAreKnownMessages(msgs, stringify);
  }

  /** Line structure of the prompt: when no message renders with a newline of
      its own, splitting the prompt at newlines gives one line per recognised
      message, in order, then the cue line. With no recognised message the
      prompt opens with an empty line. */
  lemma EncodeLines<O>(msgs: seq<Message<O>>, stringify: O -> string)
    requires forall i :: 0 <= i < |msgs| ==> '\n' !in RenderMessage(msgs[i], stringify)
    ensures var lines := Split(EncodePrompt(msgs, stringify), '\n');
      var known := Known(msgs);
      && |lines| == (if |known| == 0 then 2 else |known| + 1)
      && lines[|lines| - 1] == Label(Assistant)
      && (|known| == 0 ==> lines[0] == "")
      && forall i :: 0 <= i < |known| ==> lines[i] == RenderMessage(known[i], stringify)
  {
    var kept := DropEmpty(RenderAll(msgs, stringify));
    LinesAreKnownMessages(msgs, stringify);
    KnownSingleLine(msgs, stringify);
    if |kept| == 0 {
      CueLines();
    } else {
      JoinedLines(kept);
    }
  }

  lemma {:induction false} KnownSingleLine<O>(msgs: seq<Message<O>>, stringify: O -> string)
    requires forall i :: 0 <= i < |msgs| ==> '\n' !in RenderMessage(msgs[i], stringify)
    ensures forall i :: 0 <= i < |Known(msgs)| ==> '\n' !in RenderMessage(Known(msgs)[i], stringify)
    decreases |msgs|
  {
    if |msgs| > 0 {
      KnownSingleLine(msgs[1..], stringify);
      assert forall i :: 0 <= i < |msgs| - 1 ==> msgs[1..][i] == msgs[i + 1];
    }
  }

  lemma LabelsSingleLine(r: Role)
    ensures '\n' !in Label(r) + " "
  {
  }

  lemma CueLines()
    ensures Split(Cue, '\n') == ["", Label(Assistant)]
  {
    assert Cue == "" + ['\n'] + Label(Assistant);
    SplitAtFirst("", '\n', Label(Assistant));
    SplitWithoutSeparator(Label(Assistant), '\n');
  }

  lemma JoinedLines(kept: seq<string>)
    requires |kept| >= 1
    requires forall i :: 0 <= i < |kept| ==> '\n' !in kept[i]
    ensures Split(Join(kept, "\n") + Cue, '\n') == kept + [Label(Assistant)]
  {
    var all := kept + [Label(Assistant)];
    assert Join(kept, "\n") + Cue == Join(all, "\n") by {
      JoinSnoc(kept, Label(Assistant), "\n");
    }
    forall i | 0 <= i < |all|
      ensures '\n' !in all[i]
    {
      if i == |kept| {
        LabelsSingleLine(Assistant);
      } else {
        assert all[i] == kept[i];
      }
    }
    SplitJoin(all, '\n');
  }

  /** The role whose label, followed by a space, opens `line`, if any. */
  function LineRole(line: string): Option<Role>
  {
    if StartsWith(line, Label(User) + " ") then Some(User)
    else if StartsWith(line, Label(Assistant) + " ") then Some(Assistant)
    else if StartsWith(line, Label(System) + " ") then Some(System)
    else if StartsWith(line, Label(Tool) + " ") then Some(Tool)
    else None
  }

  predicate StartsWith(s: string, prefix: string)
  {
    |prefix| <= |s| && s[..|prefix|] == prefix
  }

  /** The labels are unambiguous: the role of every rendered line can be read
      back from its head. */
  lemma LabelIdentifiesRole<O>(m: Message<O>, stringify: O -> string)
    ensures LineRole(RenderMessage(m, stringify)) == RoleOf(m)
  {
    var line := RenderMessage(m, stringify);
    match RoleOf(m)
    case None =>
    case Some(r) =>
      assert StartsWith(line, Label(r) + " ");
      if r != User {
        assert line[0] != 'H';
        assert !StartsWith(line, Label(User) + " ");
      }
      if r != Assistant {
        assert line[0] != 'A';
        assert !StartsWith(line, Label(Assistant) + " ");
      }
      if r != System {
        var head := Label(System) + " ";
        assert line[0] != 'S' && head[0] == 'S';
        assert !StartsWith(line, head);
      }
  }

  /** The parts of a user, assistant or tool message are separated by exactly
      one space: when no rendered part holds a space of its own, splitting the
      body at spaces gives back the rendered parts, one per part. */
  lemma PartsSpaceSeparated<O>(m: Message<O>, stringify: O -> string)
    requires m.UserMessage? || m.AssistantMessage? || m.ToolMessage?
    requires |m.parts| >= 1
    requires forall i :: 0 <= i < |m.parts| ==> ' ' !in PartText(m, i, stringify)
    ensures var fields := Split(Body(m, stringify), ' ');
      && |fields| == |m.parts|
      && forall i :: 0 <= i < |m.parts| ==> fields[i] == PartText(m, i, stringify)
  {
    var pieces := if m.ToolMessage? then RenderToolParts(m.parts, stringify) else RenderChatParts(m.parts);
    assert forall i :: 0 <= i < |pieces| ==> pieces[i] == PartText(m, i, stringify);
    SplitJoin(pieces, ' ');
  }

  /** How part `i` of a user, assistant or tool message reads in the prompt. */
  function PartText<O>(m: Message<O>, i: nat, stringify: O -> string): string
    requires m.UserMessage? || m.AssistantMessage? || m.ToolMessage?
    requires i < |m.parts|
  {
    if m.ToolMessage? then RenderToolPart(m.parts[i], stringify) else RenderChatPart(m.parts[i])
  }

  /** A message renders without a newline when none of its text, system
      content or serialised tool output holds one (the labels and placeholders
      hold none). */
  lemma SingleLineMessage<O>(m: Message<O>, stringify: O -> string)
    requires m.SystemMessage? ==> '\n' !in m.content
    requires m.UserMessage? || m.AssistantMessage? || m.ToolMessage? ==>
      forall i :: 0 <= i < |m.parts| ==> '\n' !in PartText(m, i, stringify)
    ensures '\n' !in RenderMessage(m, stringify)
  {
    if RoleOf(m).Some? {
      var r := RoleOf(m).value;
      assert '\n' !in Body(m, stringify) by {
        if m.UserMessage? || m.AssistantMessage? || m.ToolMessage? {
          var pieces := if m.ToolMessage? then RenderToolParts(m.parts, stringify) else RenderChatParts(m.parts);
          forall i | 0 <= i < |pieces|
            ensures '\n' !in pieces[i]
          {
            assert pieces[i] == PartText(m, i, stringify);
          }
          JoinAvoids(pieces, " ", '\n');
        }
      }
      LabelsSingleLine(r);
      assert RenderMessage(m, stringify) == (Label(r) + " ") + Body(m, stringify);
    }
  }

  /** A lone user greeting. */
  lemma EncodeGreeting(stringify: string -> string)
    ensures EncodePrompt([UserMessage([TextPart("Hi")])], stringify) == "Human: Hi\nAssistant:"
  {
    var user: Message<string> := UserMessage([TextPart("Hi")]);
    assert RenderChatParts(user.parts) == ["Hi"];
    assert RenderMessage(user, stringify) == "Human: Hi";
    assert RenderAll([user], stringify) == ["Human: Hi"];
    assert DropEmpty(["Human: Hi"]) == ["Human: Hi"];
  }

  /** The same greeting after a system instruction. */
  lemma EncodeInstructedGreeting(stringify: string -> string)
    ensures EncodePrompt([SystemMessage("Be terse."), UserMessage([TextPart("Hi")])], stringify)
      == "System: Be terse." + "\n" + "Human: Hi" + "\n" + "Assistant:"
  {
    var user: Message<string> := UserMessage([TextPart("Hi")]);
    var system: Message<string> := SystemMessage("Be terse.");
    var msgs := [system, user];
    var lines := ["System: Be terse.", "Human: Hi"];
    assert RenderAll(msgs, stringify) == lines by {
      assert RenderChatParts(user.parts) == ["Hi"];
      assert RenderMessage(user, stringify) == "Human: Hi";
      assert RenderMessage(system, stringify) == "System: Be terse.";
      assert msgs[1..] == [user];
    }
    assert DropEmpty(lines) == lines by {
      assert lines[1..] == ["Human: Hi"];
    }
    assert Join(lines, "\n") == lines[0] + "\n" + lines[1] by {
      assert lines[1..] == [lines[1]];
    }
  }
}
