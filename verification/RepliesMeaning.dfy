/** Normalised replies against the replies themselves: what is accepted, what is carried
    over from the wire, and what a turn drops. */
module RepliesMeaning {
  import opened SafeWrite
  import opened Protocol
  import opened Sequences
  import opened Pairing
  import opened Replies

  // ---- Responses ---------------------------------------------------------

  /** What one output item says. */
  function OutputEventsOf(o: Output): seq<Event> {
    match o
    case OutMessage(parts) =>
      seq(|parts|, i requires 0 <= i < |parts| => Said(ByAssistant, if parts[i].OutputText? then parts[i].text else ""))
    case OutCall(id, name, arguments) => [Asked(id, name, arguments)]
    case OutReasoning => []
    case OutUnknown => []
  }

  function OutputEvents(output: seq<Output>): seq<Event>
    decreases |output|
  {
    if output == [] then [] else OutputEvents(output[..|output| - 1]) + OutputEventsOf(output[|output| - 1])
  }

  /** Text parts only; calls with id, name and arguments that are an object. */
  ghost predicate Readable(o: Output, decodes: string -> bool) {
    match o
    case OutMessage(parts) => forall i :: 0 <= i < |parts| ==> parts[i].OutputText?
    case OutCall(id, name, arguments) =>
      id != "" && name != "" && (arguments.Object? || (arguments.Json? && decodes(arguments.text)))
    case OutReasoning => true
    case OutUnknown => false
  }

  predicate Consumable(o: Output) {
    (o.OutMessage? && o.parts != []) || o.OutCall?
  }

  lemma TakeOutputAccepts(r: Reply, o: Output, decodes: string -> bool)
    ensures TakeOutput(r, o, decodes).Some? <==> Readable(o, decodes)
  {
  }

  lemma MessageSays(r: Reply, parts: seq<Part>, decodes: string -> bool)
    requires PartTexts(parts).Some?
    ensures Events(TakeOutput(r, OutMessage(parts), decodes).value.items) == Events(r.items) + OutputEventsOf(OutMessage(parts))
  {
    var texts := PartTexts(parts).value;
    EventsSnoc(r.items, ItemMessage(texts));
    assert SaidAll(ByAssistant, texts) == OutputEventsOf(OutMessage(parts));
    assert texts == [] ==> Events(r.items) + OutputEventsOf(OutMessage(parts)) == Events(r.items);
  }

  lemma TakeOutputSays(r: Reply, o: Output, decodes: string -> bool)
    requires TakeOutput(r, o, decodes).Some?
    ensures Events(TakeOutput(r, o, decodes).value.items) == Events(r.items) + OutputEventsOf(o)
  {
    match o
    case OutMessage(parts) => MessageSays(r, parts, decodes);
    case OutCall(id, name, arguments) => EventsSnoc(r.items, ItemCall(id, name, arguments));
    case OutReasoning => assert Events(r.items) + [] == Events(r.items);
    case OutUnknown =>
  }

  lemma {:induction false} TakeOutputsAccept(output: seq<Output>, decodes: string -> bool)
    ensures TakeOutputs(output, decodes).Some? <==> forall i :: 0 <= i < |output| ==> Readable(output[i], decodes)
    decreases |output|
  {
    if output != [] {
      var front, o := output[..|output| - 1], output[|output| - 1];
      TakeOutputsAccept(front, decodes);
      if TakeOutputs(front, decodes).Some? { TakeOutputAccepts(TakeOutputs(front, decodes).value, o, decodes); }
      assert forall i :: 0 <= i < |front| ==> output[i] == front[i];
    }
  }

  lemma {:induction false} TakeOutputsSay(output: seq<Output>, decodes: string -> bool)
    requires TakeOutputs(output, decodes).Some?
    ensures Events(TakeOutputs(output, decodes).value.items) == OutputEvents(output)
    decreases |output|
  {
    if output != [] {
      var front := output[..|output| - 1];
      TakeOutputsSay(front, decodes);
      TakeOutputSays(TakeOutputs(front, decodes).value, output[|output| - 1], decodes);
    }
  }

  lemma {:induction false} NothingTaken(output: seq<Output>, decodes: string -> bool)
    requires TakeOutputs(output, decodes).Some?
    ensures TakeOutputs(output, decodes).value.items == [] <==> forall i :: 0 <= i < |output| ==> !Consumable(output[i])
    decreases |output|
  {
    if output != [] {
      var front, o := output[..|output| - 1], output[|output| - 1];
      NothingTaken(front, decodes);
      assert forall i :: 0 <= i < |front| ==> output[i] == front[i];
      TakesSome(TakeOutputs(front, decodes).value, o, decodes);
    }
  }

  lemma TakesSome(r: Reply, o: Output, decodes: string -> bool)
    requires TakeOutput(r, o, decodes).Some?
    ensures TakeOutput(r, o, decodes).value.items == [] <==> r.items == [] && !Consumable(o)
  {
  }

  /** A Responses reply is accepted if and only if it is completed, each item can be read and
      one can be consumed; then the history items say exactly what it says -- every text
      part and call, in order, reasoning left out -- and so do its text and its calls. */
  lemma ResponsesReplySays(completed: bool, output: seq<Output>, decodes: string -> bool)
    ensures var reply := NormalizeResponses(completed, output, decodes);
      && (reply.Some? <==> completed && (forall i :: 0 <= i < |output| ==> Readable(output[i], decodes))
                           && exists i :: 0 <= i < |output| && Consumable(output[i]))
      && (reply.Some? ==>
            && Events(reply.value.items) == OutputEvents(output)
            && reply.value.text == Spoken(OutputEvents(output)) && reply.value.calls == Questions(OutputEvents(output)))
  {
    TakeOutputsAccept(output, decodes);
    if TakeOutputs(output, decodes).Some? {
      TakeOutputsSay(output, decodes);
      NothingTaken(output, decodes);
    }
    if NormalizeResponses(completed, output, decodes).Some? { ResponsesCarries(completed, output, decodes); }
  }

  // ---- Anthropic Messages ------------------------------------------------

  function BlockSays(b: AnthropicBlock): seq<Event> {
    match b
    case AText(text) => [Said(ByAssistant, text)]
    case AToolUse(id, name, input) => if input.Some? then [Asked(id, name, Json(input.value))] else []
    case AThinking => []
    case AUnknown => []
  }

  function ContentSays(content: seq<AnthropicBlock>): seq<Event>
    decreases |content|
  {
    if content == [] then [] else ContentSays(content[..|content| - 1]) + BlockSays(content[|content| - 1])
  }

  predicate ReadableBlock(b: AnthropicBlock) {
    match b
    case AText(_) => true
    case AToolUse(id, name, input) => id != "" && name != "" && input.Some?
    case AThinking => true
    case AUnknown => false
  }

  lemma BlockEventsSnoc(blocks: seq<Block>, b: Block)
    ensures BlockEvents(blocks + [b]) == BlockEvents(blocks) + [BlockEvent(b)]
  {
  }

  lemma TakeBlockSays(c: Carried, b: AnthropicBlock)
    ensures TakeBlock(c, b).Some? <==> ReadableBlock(b)
    ensures TakeBlock(c, b).Some? ==> BlockEvents(TakeBlock(c, b).value.blocks) == BlockEvents(c.blocks) + BlockSays(b)
    ensures TakeBlock(c, b).Some? ==> (TakeBlock(c, b).value.blocks == [] <==> c.blocks == [] && !b.AText? && !b.AToolUse?)
  {
    match b
    case AText(text) => BlockEventsSnoc(c.blocks, TextBlock(text));
    case AToolUse(id, name, input) => if input.Some? { BlockEventsSnoc(c.blocks, ToolUse(id, name, input.value)); }
    case _ => assert BlockEvents(c.blocks) + [] == BlockEvents(c.blocks);
  }

  lemma {:induction false} TakeBlocksSay(content: seq<AnthropicBlock>)
    ensures TakeBlocks(content).Some? <==> forall i :: 0 <= i < |content| ==> ReadableBlock(content[i])
    ensures TakeBlocks(content).Some? ==> BlockEvents(TakeBlocks(content).value.blocks) == ContentSays(content)
    ensures TakeBlocks(content).Some? ==>
      (TakeBlocks(content).value.blocks == [] <==> forall i :: 0 <= i < |content| ==> !content[i].AText? && !content[i].AToolUse?)
    decreases |content|
  {
    if content != [] {
      var front, b := content[..|content| - 1], content[|content| - 1];
      TakeBlocksSay(front);
      if TakeBlocks(front).Some? { TakeBlockSays(TakeBlocks(front).value, b); }
      assert forall i :: 0 <= i < |front| ==> content[i] == front[i];
    }
  }

  /** The same for an Anthropic reply, thinking left out. */
  lemma AnthropicReplySays(hasStopReason: bool, content: seq<AnthropicBlock>)
    ensures var reply := NormalizeAnthropic(hasStopReason, content);
      && (reply.Some? <==> hasStopReason && (forall i :: 0 <= i < |content| ==> ReadableBlock(content[i]))
                           && exists i :: 0 <= i < |content| && (content[i].AText? || content[i].AToolUse?))
      && (reply.Some? ==>
            && Events(reply.value.items) == ContentSays(content)
            && reply.value.text == Spoken(ContentSays(content)) && reply.value.calls == Questions(ContentSays(content)))
  {
    TakeBlocksSay(content);
    if NormalizeAnthropic(hasStopReason, content).Some? {
      AnthropicCarries(hasStopReason, content);
      BlocksMessage(TakeBlocks(content).value.blocks);
    }
  }

  lemma BlocksMessage(blocks: seq<Block>)
    ensures Events([Assistant(Blocks(blocks), [])]) == BlockEvents(blocks)
  {
    EventsOne(Assistant(Blocks(blocks), []));
    assert BlockEvents(blocks) + AskedAll([]) == BlockEvents(blocks);
  }

  // ---- Chat Completions --------------------------------------------------

  /** A chat reply is accepted unless it finished for tool calls and one of them has no id,
      no name or arguments that are not an object; its text is the content, its calls are
      taken up only then, and the message is carried over whole. */
  lemma ChatReplySays(finishedForTools: bool, content: Option<string>, calls: seq<RawCall>, decodes: string -> bool)
    ensures var reply := NormalizeChat(finishedForTools, content, calls, decodes);
      && (reply.None? <==> finishedForTools && exists i :: 0 <= i < |calls| && !Readable(OutCall(calls[i].id, calls[i].name, calls[i].arguments), decodes))
      && (reply.Some? ==>
            && reply.value.text == (if content.Some? then content.value else "")
            && reply.value.calls == (if finishedForTools then calls else [])
            && Spoken(Events(reply.value.items)) == reply.value.text && Questions(Events(reply.value.items)) == calls)
  {
    ChatMessageReads(content, calls);
    ChatRefuses(calls, decodes);
  }

  lemma ChatRefuses(calls: seq<RawCall>, decodes: string -> bool)
    ensures (exists i :: 0 <= i < |calls| && !ChatCallOk(calls[i], decodes))
       <==> exists i :: 0 <= i < |calls| && !Readable(OutCall(calls[i].id, calls[i].name, calls[i].arguments), decodes)
  {
    forall i | 0 <= i < |calls|
      ensures ChatCallOk(calls[i], decodes) <==> Readable(OutCall(calls[i].id, calls[i].name, calls[i].arguments), decodes) {
    }
  }

  // ---- One turn ----------------------------------------------------------

  /** What the loop is handed of a reply: its text without thoughts, its calls, and its items,
      plain texts without thoughts; but of a reply without calls whose text looks like
      leaked tool markup nothing is shown and nothing said is kept. */
  lemma TurnHands(r: Reply, strip: string -> string, leaked: string -> bool)
    ensures var d := Decide(r, strip, leaked);
      && d.calls == r.calls && |d.items| == |r.items|
      && (r.calls == [] && leaked(strip(r.text)) ==> d.content == "")
      && (r.calls != [] || !leaked(strip(r.text)) ==>
            && d.content == strip(r.text)
            && forall i :: 0 <= i < |r.items| ==>
                 var m := r.items[i];
                 d.items[i] == if m.Assistant? && m.content.Text? && m.content.text != ""
                               then Assistant(Text(strip(m.content.text)), m.calls) else m)
  {
  }

  lemma {:induction false} AllSilent(msgs: seq<Msg>)
    requires forall i :: 0 <= i < |msgs| ==> MsgEvents(msgs[i]) == []
    ensures Events(msgs) == []
    decreases |msgs|
  {
    if msgs != [] { AllSilent(msgs[..|msgs| - 1]); }
  }

  /** Nothing of a leaked reply reaches the history, whatever protocol it came in. */
  lemma LeakedIsDropped(r: Reply, strip: string -> string, leaked: string -> bool)
    requires r.calls == [] && leaked(strip(r.text))
    requires forall i :: 0 <= i < |r.items| ==> r.items[i].ItemMessage? || (r.items[i].Assistant? && r.items[i].calls == [])
    ensures Events(Decide(r, strip, leaked).items) == []
  {
    var items := Decide(r, strip, leaked).items;
    forall i | 0 <= i < |items| ensures MsgEvents(items[i]) == [] {
      assert r.items[i].ItemMessage? || r.items[i].Assistant?;
    }
    AllSilent(items);
  }
}
