/** Model replies of the three wire protocols and what the tool loop makes of them. */
module Replies {
  import opened SafeWrite
  import opened Protocol
  import opened Sequences
  import opened Pairing

  /** A normalised reply: its visible text, its calls, and the history items that
      carry it into the next request. */
  datatype Reply = Reply(text: string, calls: seq<RawCall>, items: seq<Msg>)

  /** What every adapter promises: the history items say the text and ask exactly
      the calls, in order, and nothing else. */
  ghost predicate CarriesOver(r: Reply) {
    && OnlyAsks(Events(r.items))
    && Questions(Events(r.items)) == r.calls
    && Spoken(Events(r.items)) == r.text
  }

  /** json.loads succeeds and gives an object; an object is taken as it is. */
  predicate Parses(a: Arguments, decodes: string -> bool) {
    a.Object? || (a.Json? && decodes(a.text))
  }

  // ---- Responses ---------------------------------------------------------

  datatype Part = OutputText(text: string) | OtherPart

  datatype Output =
    | OutMessage(parts: seq<Part>)
    | OutCall(id: string, name: string, arguments: Arguments)
    | OutReasoning
    | OutUnknown

  function PartTexts(parts: seq<Part>): Option<seq<string>> {
    if forall i :: 0 <= i < |parts| ==> parts[i].OutputText?
    then Some(seq(|parts|, i requires 0 <= i < |parts| && parts[i].OutputText? => parts[i].text))
    else None
  }

  function TakeOutput(r: Reply, o: Output, decodes: string -> bool): Option<Reply> {
    match o
    case OutMessage(parts) =>
      (match PartTexts(parts)
       case None => None
       case Some(texts) =>
         Some(r.(text := r.text + Concat(texts), items := if texts == [] then r.items else r.items + [ItemMessage(texts)])))
    case OutCall(id, name, arguments) =>
      if id == "" || name == "" || !Parses(arguments, decodes) then None
      else Some(r.(calls := r.calls + [RawCall(id, name, arguments)], items := r.items + [ItemCall(id, name, arguments)]))
    case OutReasoning => Some(r)
    case OutUnknown => None
  }

  function TakeOutputs(output: seq<Output>, decodes: string -> bool): Option<Reply>
    decreases |output|
  {
    if output == [] then Some(Reply("", [], []))
    else
      var front := TakeOutputs(output[..|output| - 1], decodes);
      if front.None? then None else TakeOutput(front.value, output[|output| - 1], decodes)
  }

  function NormalizeResponses(completed: bool, output: seq<Output>, decodes: string -> bool): Option<Reply> {
    if !completed || output == [] then None
    else
      var r := TakeOutputs(output, decodes);
      if r.None? || r.value.items == [] then None else r
  }

  lemma AddItem(r: Reply, m: Msg, text: string, calls: seq<RawCall>)
    requires CarriesOver(r)
    requires OnlyAsks(MsgEvents(m)) && Questions(MsgEvents(m)) == calls && Spoken(MsgEvents(m)) == text
    ensures CarriesOver(Reply(r.text + text, r.calls + calls, r.items + [m]))
  {
    EventsSnoc(r.items, m);
    ReadingAppend(Events(r.items), MsgEvents(m));
  }

  lemma MessageCarries(r: Reply, texts: seq<string>)
    requires CarriesOver(r)
    ensures CarriesOver(Reply(r.text + Concat(texts), r.calls, r.items + [ItemMessage(texts)]))
  {
    OnlyAsksSaid(texts);
    AddItem(r, ItemMessage(texts), Concat(texts), []);
    assert r.calls + [] == r.calls;
  }

  lemma CallCarries(r: Reply, c: RawCall)
    requires CarriesOver(r)
    ensures CarriesOver(Reply(r.text, r.calls + [c], r.items + [ItemCall(c.id, c.name, c.arguments)]))
  {
    assert MsgEvents(ItemCall(c.id, c.name, c.arguments)) == AskedAll([c]);
    QuestionsOfCalls([c]);
    AddItem(r, ItemCall(c.id, c.name, c.arguments), "", [c]);
    assert r.text + "" == r.text;
  }

  lemma TakeOutputCarries(r: Reply, o: Output, decodes: string -> bool)
    requires CarriesOver(r) && TakeOutput(r, o, decodes).Some?
    ensures CarriesOver(TakeOutput(r, o, decodes).value)
  {
    match o
    case OutMessage(parts) =>
      var texts := PartTexts(parts).value;
      if texts != [] {
        MessageCarries(r, texts);
      } else {
        assert r.text + Concat(texts) == r.text;
      }
    case OutCall(id, name, arguments) => CallCarries(r, RawCall(id, name, arguments));
    case OutReasoning =>
    case OutUnknown =>
  }

  lemma {:induction false} TakeOutputsCarry(output: seq<Output>, decodes: string -> bool)
    requires TakeOutputs(output, decodes).Some?
    ensures CarriesOver(TakeOutputs(output, decodes).value)
    decreases |output|
  {
    if output != [] {
      var front := output[..|output| - 1];
      TakeOutputsCarry(front, decodes);
      TakeOutputCarries(TakeOutputs(front, decodes).value, output[|output| - 1], decodes);
    }
  }

  lemma ResponsesCarries(completed: bool, output: seq<Output>, decodes: string -> bool)
    requires NormalizeResponses(completed, output, decodes).Some?
    ensures CarriesOver(NormalizeResponses(completed, output, decodes).value)
  {
    TakeOutputsCarry(output, decodes);
  }

  /** The wire item a continuation item already is. */
  function Same(m: Msg): Item {
    match m
    case ItemMessage(texts) => WireMessage(ByAssistant, texts)
    case ItemCall(id, name, arguments) => WireCall(id, name, if arguments.Json? then arguments.text else "")
    case _ => WireOutput("", "")
  }

  function SameAll(msgs: seq<Msg>): seq<Item> {
    seq(|msgs|, i requires 0 <= i < |msgs| => Same(msgs[i]))
  }

  predicate AllJson(calls: seq<RawCall>) {
    forall i :: 0 <= i < |calls| ==> calls[i].arguments.Json?
  }

  lemma SnocJson(calls: seq<RawCall>, c: RawCall)
    ensures AllJson(calls + [c]) <==> AllJson(calls) && c.arguments.Json?
  {
    if AllJson(calls + [c]) {
      assert (calls + [c])[|calls|] == c;
      forall i | 0 <= i < |calls| ensures calls[i].arguments.Json? { assert (calls + [c])[i] == calls[i]; }
    }
  }

  /** Sending the items so far back is the identity exactly when all arguments were text. */
  ghost predicate ComesBack(r: Reply) {
    && (forall i :: 0 <= i < |r.items| ==> r.items[i].ItemMessage? || r.items[i].ItemCall?)
    && ResponsesInput(r.items) == if AllJson(r.calls) then Some(SameAll(r.items)) else None
  }

  lemma AddItemComesBack(r: Reply, m: Msg, calls: seq<RawCall>)
    requires ComesBack(r) && (m.ItemMessage? || m.ItemCall?)
    requires AllJson(calls) <==> AllJson(r.calls) && ResponsesOne(m).Some?
    requires ResponsesOne(m).Some? ==> ResponsesOne(m).value == [Same(m)]
    ensures ComesBack(Reply(r.text, calls, r.items + [m]))
  {
    assert (r.items + [m])[..|r.items|] == r.items;
    assert SameAll(r.items + [m]) == SameAll(r.items) + [Same(m)];
  }

  lemma TakeOutputComesBack(r: Reply, o: Output, decodes: string -> bool)
    requires !decodes("") && ComesBack(r) && TakeOutput(r, o, decodes).Some?
    ensures ComesBack(TakeOutput(r, o, decodes).value)
  {
    match o
    case OutMessage(parts) =>
      var texts := PartTexts(parts).value;
      if texts != [] {
        AddItemComesBack(r, ItemMessage(texts), r.calls);
      }
    case OutCall(id, name, arguments) =>
      var m, c := ItemCall(id, name, arguments), RawCall(id, name, arguments);
      SnocJson(r.calls, c);
      assert CallOk([c][0]) <==> arguments.Json?;
      if arguments.Json? {
        assert ResponsesOne(m).value == [Same(m)];
      }
      AddItemComesBack(r, m, r.calls + [c]);
    case OutReasoning =>
    case OutUnknown =>
  }

  lemma {:induction false} TakeOutputsComeBack(output: seq<Output>, decodes: string -> bool)
    requires !decodes("") && TakeOutputs(output, decodes).Some?
    ensures ComesBack(TakeOutputs(output, decodes).value)
    decreases |output|
  {
    if output == [] {
      assert SameAll([]) == [];
    } else {
      var front := output[..|output| - 1];
      TakeOutputsComeBack(front, decodes);
      TakeOutputComesBack(TakeOutputs(front, decodes).value, output[|output| - 1], decodes);
    }
  }

  /** A Responses reply survives the round trip through the loop history: its
      continuation items are sent back item for item unchanged, if and only if
      every call carried its arguments as text; otherwise the next request is refused.
      The empty text is not JSON. */
  lemma ResponsesRoundTrip(completed: bool, output: seq<Output>, decodes: string -> bool)
    requires !decodes("") && NormalizeResponses(completed, output, decodes).Some?
    ensures var r := NormalizeResponses(completed, output, decodes).value;
      ResponsesInput(r.items) == if AllJson(r.calls) then Some(SameAll(r.items)) else None
  {
    TakeOutputsComeBack(output, decodes);
  }

  // ---- Anthropic Messages ------------------------------------------------

  datatype AnthropicBlock = AText(text: string) | AToolUse(id: string, name: string, input: Option<string>) | AThinking | AUnknown

  datatype Carried = Carried(text: string, calls: seq<RawCall>, blocks: seq<Block>)

  function TakeBlock(c: Carried, b: AnthropicBlock): Option<Carried> {
    match b
    case AText(text) => Some(c.(text := c.text + text, blocks := c.blocks + [TextBlock(text)]))
    case AToolUse(id, name, input) =>
      if id == "" || name == "" || input.None? then None
      else Some(c.(calls := c.calls + [RawCall(id, name, Json(input.value))], blocks := c.blocks + [ToolUse(id, name, input.value)]))
    case AThinking => Some(c)
    case AUnknown => None
  }

  function TakeBlocks(content: seq<AnthropicBlock>): Option<Carried>
    decreases |content|
  {
    if content == [] then Some(Carried("", [], []))
    else
      var front := TakeBlocks(content[..|content| - 1]);
      if front.None? then None else TakeBlock(front.value, content[|content| - 1])
  }

  function NormalizeAnthropic(hasStopReason: bool, content: seq<AnthropicBlock>): Option<Reply> {
    if !hasStopReason then None
    else
      var c := TakeBlocks(content);
      if c.None? || c.value.blocks == [] then None
      else Some(Reply(c.value.text, c.value.calls, [Assistant(Blocks(c.value.blocks), [])]))
  }

  ghost predicate BlocksCarry(c: Carried) {
    && OnlyAsks(BlockEvents(c.blocks))
    && Questions(BlockEvents(c.blocks)) == c.calls
    && Spoken(BlockEvents(c.blocks)) == c.text
  }

  lemma {:induction false} TakeBlocksCarry(content: seq<AnthropicBlock>)
    requires TakeBlocks(content).Some?
    ensures BlocksCarry(TakeBlocks(content).value)
    decreases |content|
  {
    if content != [] {
      var front, b := content[..|content| - 1], content[|content| - 1];
      TakeBlocksCarry(front);
      var c := TakeBlocks(front).value;
      var after := TakeBlock(c, b).value;
      if |after.blocks| > |c.blocks| {
        var evs := BlockEvents(after.blocks);
        assert evs[..|evs| - 1] == BlockEvents(c.blocks);
      }
    }
  }

  lemma AnthropicCarries(hasStopReason: bool, content: seq<AnthropicBlock>)
    requires NormalizeAnthropic(hasStopReason, content).Some?
    ensures CarriesOver(NormalizeAnthropic(hasStopReason, content).value)
  {
    TakeBlocksCarry(content);
    var c := TakeBlocks(content).value;
    var m := Assistant(Blocks(c.blocks), []);
    EventsOne(m);
    assert MsgEvents(m) == BlockEvents(c.blocks);
  }

  // ---- The normalisers as they run ---------------------------------------

  lemma {:induction false} RefusedOutput(output: seq<Output>, n: nat, decodes: string -> bool)
    requires n <= |output|
    ensures TakeOutputs(output[..n], decodes).None? ==> TakeOutputs(output, decodes).None?
    decreases |output|
  {
    if n < |output| {
      var front := output[..|output| - 1];
      assert front[..n] == output[..n];
      RefusedOutput(front, n, decodes);
    } else {
      assert output[..n] == output;
    }
  }

  /** The inner loop over a message's content parts. */
  method ReadParts(parts: seq<Part>) returns (r: Option<seq<string>>)
    ensures r == PartTexts(parts)
  {
    var texts: seq<string> := [];
    for j := 0 to |parts|
      invariant forall k :: 0 <= k < j ==> parts[k].OutputText?
      invariant texts == seq(j, k requires 0 <= k < j && parts[k].OutputText? => parts[k].text)
    {
      if !parts[j].OutputText? { return None; }
      texts := texts + [parts[j].text];
    }
    return Some(texts);
  }

  method ReadResponses(completed: bool, output: seq<Output>, decodes: string -> bool) returns (r: Option<Reply>)
    ensures r == NormalizeResponses(completed, output, decodes)
  {
    if !completed || output == [] { return None; }
    var text, calls: seq<RawCall>, items: seq<Msg> := "", [], [];
    for i := 0 to |output|
      invariant TakeOutputs(output[..i], decodes) == Some(Reply(text, calls, items))
    {
      assert output[..i + 1][..i] == output[..i];
      RefusedOutput(output, i + 1, decodes);
      match output[i]
      case OutMessage(parts) =>
        var read := ReadParts(parts);
        if read.None? { return None; }
        var texts := read.value;
        text := text + Concat(texts);
        if texts != [] { items := items + [ItemMessage(texts)]; }
      case OutCall(id, name, arguments) =>
        if id == "" || name == "" || !Parses(arguments, decodes) { return None; }
        calls := calls + [RawCall(id, name, arguments)];
        items := items + [ItemCall(id, name, arguments)];
      case OutReasoning =>
      case OutUnknown => return None;
    }
    assert output[..|output|] == output;
    return if items == [] then None else Some(Reply(text, calls, items));
  }

  lemma {:induction false} RefusedBlock(content: seq<AnthropicBlock>, n: nat)
    requires n <= |content|
    ensures TakeBlocks(content[..n]).None? ==> TakeBlocks(content).None?
    decreases |content|
  {
    if n < |content| {
      var front := content[..|content| - 1];
      assert front[..n] == content[..n];
      RefusedBlock(front, n);
    } else {
      assert content[..n] == content;
    }
  }

  method ReadAnthropic(hasStopReason: bool, content: seq<AnthropicBlock>) returns (r: Option<Reply>)
    ensures r == NormalizeAnthropic(hasStopReason, content)
  {
    if !hasStopReason { return None; }
    var text, calls: seq<RawCall>, blocks: seq<Block> := "", [], [];
    for i := 0 to |content|
      invariant TakeBlocks(content[..i]) == Some(Carried(text, calls, blocks))
    {
      assert content[..i + 1][..i] == content[..i];
      RefusedBlock(content, i + 1);
      match content[i]
      case AText(t) =>
        text, blocks := text + t, blocks + [TextBlock(t)];
      case AToolUse(id, name, input) =>
        if id == "" || name == "" || input.None? { return None; }
        calls := calls + [RawCall(id, name, Json(input.value))];
        blocks := blocks + [ToolUse(id, name, input.value)];
      case AThinking =>
      case AUnknown => return None;
    }
    assert content[..|content|] == content;
    return if blocks == [] then None else Some(Reply(text, calls, [Assistant(Blocks(blocks), [])]));
  }

  // ---- Chat Completions --------------------------------------------------

  predicate ChatCallOk(c: RawCall, decodes: string -> bool) {
    c.id != "" && c.name != "" && Parses(c.arguments, decodes)
  }

  function TextOf(content: Option<string>): string {
    if content.Some? then content.value else ""
  }

  function ContentOf(content: Option<string>): Content {
    if content.Some? then Text(content.value) else Absent
  }

  /** The message is carried whole; its calls are taken up only when the choice
      finished for tool calls. */
  function NormalizeChat(finishedForTools: bool, content: Option<string>, calls: seq<RawCall>, decodes: string -> bool): Option<Reply> {
    var items := [Assistant(ContentOf(content), calls)];
    if !finishedForTools then Some(Reply(TextOf(content), [], items))
    else if exists i :: 0 <= i < |calls| && !ChatCallOk(calls[i], decodes) then None
    else Some(Reply(TextOf(content), calls, items))
  }

  lemma OneSpoken(text: string)
    ensures var said := [Said(ByAssistant, text)]; Questions(said) == [] && Spoken(said) == text
  {
    assert [Said(ByAssistant, text)][..0] == [];
    assert "" + text == text;
  }

  lemma SpeechReads(content: Option<string>)
    ensures var said := ContentEvents(ByAssistant, ContentOf(content));
      OnlyAsks(said) && Questions(said) == [] && Spoken(said) == TextOf(content)
  {
    var text := TextOf(content);
    if text != "" {
      OneSpoken(text);
    }
  }

  lemma SpeechThenCalls(said: seq<Event>, calls: seq<RawCall>)
    requires OnlyAsks(said) && Questions(said) == []
    ensures OnlyAsks(said + AskedAll(calls)) && Questions(said + AskedAll(calls)) == calls
    ensures Spoken(said + AskedAll(calls)) == Spoken(said)
  {
    QuestionsOfCalls(calls);
    ReadingAppend(said, AskedAll(calls));
    assert [] + calls == calls && Spoken(said) + "" == Spoken(said);
  }

  /** What a chat message says: its text, then its calls. */
  lemma ChatMessageReads(content: Option<string>, calls: seq<RawCall>)
    ensures var evs := Events([Assistant(ContentOf(content), calls)]);
      OnlyAsks(evs) && Questions(evs) == calls && Spoken(evs) == TextOf(content)
  {
    SpeechReads(content);
    SpeechThenCalls(ContentEvents(ByAssistant, ContentOf(content)), calls);
    EventsOne(Assistant(ContentOf(content), calls));
  }

  /** A chat reply carries over exactly when its calls were taken up or there were none. */
  lemma ChatCarries(finishedForTools: bool, content: Option<string>, calls: seq<RawCall>, decodes: string -> bool)
    requires NormalizeChat(finishedForTools, content, calls, decodes).Some?
    ensures CarriesOver(NormalizeChat(finishedForTools, content, calls, decodes).value) <==> finishedForTools || calls == []
  {
    ChatMessageReads(content, calls);
  }

  // ---- One turn of the loop ----------------------------------------------

  /** What the loop is handed: visible text, calls, and items for its history. */
  datatype Decision = Decision(content: string, calls: seq<RawCall>, items: seq<Msg>)

  function Stripped(m: Msg, strip: string -> string): Msg {
    match m
    case Assistant(Text(text), calls) => if text == "" then m else Assistant(Text(strip(text)), calls)
    case _ => m
  }

  function StrippedAll(msgs: seq<Msg>, strip: string -> string): seq<Msg> {
    seq(|msgs|, i requires 0 <= i < |msgs| => Stripped(msgs[i], strip))
  }

  function WithoutContent(msgs: seq<Msg>): seq<Msg> {
    seq(|msgs|, i requires 0 <= i < |msgs| =>
      match msgs[i]
      case Assistant(_, calls) => Assistant(Absent, calls)
      case ItemMessage(_) => ItemMessage([])
      case m => m)
  }

  function Decide(r: Reply, strip: string -> string, leaked: string -> bool): Decision {
    var items := StrippedAll(r.items, strip);
    var content := strip(r.text);
    if r.calls == [] && leaked(content) then Decision("", [], WithoutContent(items)) else Decision(content, r.calls, items)
  }

  /** The calls of a turn are exactly what its history items ask. */
  ghost predicate Faithful(t: Decision) {
    t.calls != [] ==> OnlyAsks(Events(t.items)) && Questions(Events(t.items)) == t.calls
  }

  lemma TextMessageAsks(text: string, calls: seq<RawCall>)
    ensures var evs := MsgEvents(Assistant(Text(text), calls)); OnlyAsks(evs) && Questions(evs) == calls
  {
    SpeechReads(Some(text));
    SpeechThenCalls(ContentEvents(ByAssistant, Text(text)), calls);
  }

  lemma StrippedEvents(m: Msg, strip: string -> string)
    requires OnlyAsks(MsgEvents(m))
    ensures OnlyAsks(MsgEvents(Stripped(m, strip)))
    ensures Questions(MsgEvents(Stripped(m, strip))) == Questions(MsgEvents(m))
  {
    if m.Assistant? && m.content.Text? {
      TextMessageAsks(m.content.text, m.calls);
      TextMessageAsks(strip(m.content.text), m.calls);
    }
  }

  lemma OnlyAsksParts(a: seq<Event>, b: seq<Event>)
    ensures OnlyAsks(a + b) <==> OnlyAsks(a) && OnlyAsks(b)
  {
    if OnlyAsks(a + b) {
      forall i | 0 <= i < |a| ensures a[i].Asked? || (a[i].Said? && a[i].speaker.ByAssistant?) { assert (a + b)[i] == a[i]; }
      forall i | 0 <= i < |b| ensures b[i].Asked? || (b[i].Said? && b[i].speaker.ByAssistant?) { assert (a + b)[|a| + i] == b[i]; }
    }
  }

  lemma StrippedOneMore(front: seq<Msg>, m: Msg, strip: string -> string)
    requires OnlyAsks(Events(front + [m]))
    requires OnlyAsks(Events(front)) ==>
      OnlyAsks(Events(StrippedAll(front, strip))) && Questions(Events(StrippedAll(front, strip))) == Questions(Events(front))
    ensures OnlyAsks(Events(StrippedAll(front, strip) + [Stripped(m, strip)]))
    ensures Questions(Events(StrippedAll(front, strip) + [Stripped(m, strip)])) == Questions(Events(front + [m]))
  {
    EventsSnoc(front, m);
    EventsSnoc(StrippedAll(front, strip), Stripped(m, strip));
    OnlyAsksParts(Events(front), MsgEvents(m));
    StrippedEvents(m, strip);
    OnlyAsksParts(Events(StrippedAll(front, strip)), MsgEvents(Stripped(m, strip)));
    ReadingAppend(Events(front), MsgEvents(m));
    ReadingAppend(Events(StrippedAll(front, strip)), MsgEvents(Stripped(m, strip)));
  }

  lemma OnlyAsksFront(front: seq<Msg>, m: Msg)
    requires OnlyAsks(Events(front + [m]))
    ensures OnlyAsks(Events(front))
  {
    EventsSnoc(front, m);
    OnlyAsksParts(Events(front), MsgEvents(m));
  }

  lemma {:induction false} StrippedAllEvents(msgs: seq<Msg>, strip: string -> string)
    requires OnlyAsks(Events(msgs))
    ensures OnlyAsks(Events(StrippedAll(msgs, strip)))
    ensures Questions(Events(StrippedAll(msgs, strip))) == Questions(Events(msgs))
    decreases |msgs|
  {
    if msgs == [] {
      assert StrippedAll(msgs, strip) == [];
    } else {
      var front, m := msgs[..|msgs| - 1], msgs[|msgs| - 1];
      assert msgs == front + [m] && StrippedAll(msgs, strip) == StrippedAll(front, strip) + [Stripped(m, strip)];
      OnlyAsksFront(front, m);
      StrippedAllEvents(front, strip);
      StrippedOneMore(front, m, strip);
    }
  }

  /** Removing thoughts from a turn leaves its questions alone. */
  lemma TurnIsFaithful(r: Reply, strip: string -> string, leaked: string -> bool)
    requires CarriesOver(r)
    ensures Faithful(Decide(r, strip, leaked)) && Decide(r, strip, leaked).calls == r.calls
  {
    StrippedAllEvents(r.items, strip);
  }
}
