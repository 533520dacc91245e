/** The protocol boundary: the tool loop's message history, its translation to the
    Responses and the Anthropic Messages wire formats, and the normalisation of
    replies into history items. */
module Protocol {
  import opened SafeWrite
  import opened Sequences

  /** Raw tool arguments: a JSON string, an object handed over as it is, or neither. */
  datatype Arguments = Json(text: string) | Object | Other

  datatype Speaker = BySystem | ByDeveloper | ByUser | ByAssistant

  datatype Block = TextBlock(text: string) | ToolUse(id: string, name: string, input: string) | ToolResult(id: string, text: string)

  datatype Content = Absent | Text(text: string) | Blocks(blocks: seq<Block>)

  datatype RawCall = RawCall(id: string, name: string, arguments: Arguments)

  /** One history item.  The `Item` forms are Responses continuation items. */
  datatype Msg =
    | Plain(speaker: Speaker, content: Content)
    | Assistant(content: Content, calls: seq<RawCall>)
    | Tool(callId: string, content: Content)
    | ItemMessage(texts: seq<string>)
    | ItemCall(id: string, name: string, arguments: Arguments)
    | ItemOutput(id: string, output: string)

  /** A Responses input item. */
  datatype Item =
    | WireMessage(speaker: Speaker, texts: seq<string>)
    | WireCall(id: string, name: string, arguments: string)
    | WireOutput(id: string, output: string)

  /** What a history says, whatever its format: texts, tool questions, tool answers. */
  datatype Event = Said(speaker: Speaker, text: string) | Asked(id: string, name: string, arguments: Arguments) | Answered(id: string, text: string)

  function SaidAll(speaker: Speaker, texts: seq<string>): seq<Event> {
    seq(|texts|, i requires 0 <= i < |texts| => Said(speaker, texts[i]))
  }

  function AskedAll(calls: seq<RawCall>): seq<Event> {
    seq(|calls|, i requires 0 <= i < |calls| => Asked(calls[i].id, calls[i].name, calls[i].arguments))
  }

  function BlockEvent(b: Block): Event {
    match b
    case TextBlock(text) => Said(ByAssistant, text)
    case ToolUse(id, name, input) => Asked(id, name, Json(input))
    case ToolResult(id, text) => Answered(id, text)
  }

  function BlockEvents(blocks: seq<Block>): seq<Event> {
    seq(|blocks|, i requires 0 <= i < |blocks| => BlockEvent(blocks[i]))
  }

  function ContentEvents(speaker: Speaker, c: Content): seq<Event> {
    match c
    case Absent => []
    case Text(text) => if text == "" && speaker.ByAssistant? then [] else [Said(speaker, text)]
    case Blocks(blocks) => BlockEvents(blocks)
  }

  function MsgEvents(m: Msg): seq<Event> {
    match m
    case Plain(speaker, content) => ContentEvents(speaker, content)
    case Assistant(content, calls) => ContentEvents(ByAssistant, content) + AskedAll(calls)
    case Tool(id, content) => [Answered(id, if content.Text? then content.text else "")]
    case ItemMessage(texts) => SaidAll(ByAssistant, texts)
    case ItemCall(id, name, arguments) => [Asked(id, name, arguments)]
    case ItemOutput(id, output) => [Answered(id, output)]
  }

  function Events(msgs: seq<Msg>): seq<Event>
    decreases |msgs|
  {
    if msgs == [] then [] else Events(msgs[..|msgs| - 1]) + MsgEvents(msgs[|msgs| - 1])
  }

  function ItemEventsOf(it: Item): seq<Event> {
    match it
    case WireMessage(speaker, texts) => SaidAll(speaker, texts)
    case WireCall(id, name, arguments) => [Asked(id, name, Json(arguments))]
    case WireOutput(id, output) => [Answered(id, output)]
  }

  function ItemEvents(items: seq<Item>): seq<Event>
    decreases |items|
  {
    if items == [] then [] else ItemEvents(items[..|items| - 1]) + ItemEventsOf(items[|items| - 1])
  }

  lemma EventsSnoc(msgs: seq<Msg>, m: Msg)
    ensures Events(msgs + [m]) == Events(msgs) + MsgEvents(m)
  {
    assert (msgs + [m])[..|msgs|] == msgs;
  }

  lemma EventsAppendOne(a: seq<Msg>, front: seq<Msg>, last: Msg)
    requires Events(a + front) == Events(a) + Events(front)
    ensures Events(a + (front + [last])) == Events(a) + Events(front + [last])
  {
    EventsSnoc(a + front, last);
    EventsSnoc(front, last);
    Assoc(a, front, [last]);
    Assoc(Events(a), Events(front), MsgEvents(last));
  }

  lemma {:induction false} EventsAppend(a: seq<Msg>, b: seq<Msg>)
    ensures Events(a + b) == Events(a) + Events(b)
    decreases |b|
  {
    if b == [] {
      assert a + b == a;
    } else {
      var front, last := b[..|b| - 1], b[|b| - 1];
      assert b == front + [last];
      EventsAppend(a, front);
      EventsAppendOne(a, front, last);
    }
  }

  lemma EventsOne(m: Msg)
    ensures Events([m]) == MsgEvents(m)
  {
    assert [m][..0] == [];
  }

  lemma ItemEventsSnoc(items: seq<Item>, it: Item)
    ensures ItemEvents(items + [it]) == ItemEvents(items) + ItemEventsOf(it)
  {
    assert (items + [it])[..|items|] == items;
  }

  lemma ItemEventsAppendOne(a: seq<Item>, front: seq<Item>, last: Item)
    requires ItemEvents(a + front) == ItemEvents(a) + ItemEvents(front)
    ensures ItemEvents(a + (front + [last])) == ItemEvents(a) + ItemEvents(front + [last])
  {
    ItemEventsSnoc(a + front, last);
    ItemEventsSnoc(front, last);
    Assoc(a, front, [last]);
    Assoc(ItemEvents(a), ItemEvents(front), ItemEventsOf(last));
  }

  lemma {:induction false} ItemEventsAppend(a: seq<Item>, b: seq<Item>)
    ensures ItemEvents(a + b) == ItemEvents(a) + ItemEvents(b)
    decreases |b|
  {
    if b == [] {
      assert a + b == a;
    } else {
      var front, last := b[..|b| - 1], b[|b| - 1];
      assert b == front + [last];
      ItemEventsAppend(a, front);
      ItemEventsAppendOne(a, front, last);
    }
  }

  // ---- Responses input ---------------------------------------------------

  predicate CallOk(c: RawCall) {
    c.id != "" && c.name != "" && c.arguments.Json? && c.arguments.text != ""
  }

  function WireCalls(calls: seq<RawCall>): Option<seq<Item>> {
    if forall i :: 0 <= i < |calls| ==> CallOk(calls[i])
    then Some(seq(|calls|, i requires 0 <= i < |calls| && CallOk(calls[i]) => WireCall(calls[i].id, calls[i].name, calls[i].arguments.text)))
    else None
  }

  /** The items for one message; None is a raised ValueError. */
  function ResponsesOne(m: Msg): Option<seq<Item>> {
    match m
    case ItemCall(id, name, arguments) => WireCalls([RawCall(id, name, arguments)])
    case ItemOutput(id, output) => if id != "" then Some([WireOutput(id, output)]) else None
    case ItemMessage(texts) => Some([WireMessage(ByAssistant, texts)])
    case Plain(speaker, content) =>
      if content.Text? && !speaker.ByAssistant? then Some([WireMessage(speaker, [content.text])]) else None
    case Assistant(content, calls) =>
      var falsy := content.Absent? || content == Text("") || content == Blocks([]);
      if !falsy && !content.Text? then None
      else if WireCalls(calls).None? then None
      else Some((if falsy then [] else [WireMessage(ByAssistant, [content.text])]) + WireCalls(calls).value)
    case Tool(id, content) => if id != "" && content.Text? then Some([WireOutput(id, content.text)]) else None
  }

  function ResponsesInput(msgs: seq<Msg>): Option<seq<Item>>
    decreases |msgs|
  {
    if msgs == [] then Some([])
    else
      var front, last := ResponsesInput(msgs[..|msgs| - 1]), ResponsesOne(msgs[|msgs| - 1]);
      if front.None? || last.None? then None else Some(front.value + last.value)
  }

  lemma {:induction false} CallItemsEvents(calls: seq<RawCall>)
    requires WireCalls(calls).Some?
    ensures ItemEvents(WireCalls(calls).value) == AskedAll(calls)
    decreases |calls|
  {
    if calls != [] {
      var n := |calls| - 1;
      assert WireCalls(calls[..n]).Some?;
      CallItemsEvents(calls[..n]);
      assert WireCalls(calls).value[..n] == WireCalls(calls[..n]).value;
      assert AskedAll(calls) == AskedAll(calls[..n]) + [AskedAll(calls)[n]];
    }
  }

  lemma OneItem(it: Item)
    ensures ItemEvents([it]) == ItemEventsOf(it)
  {
    assert [it][..0] == [];
  }

  lemma SpokenItem(text: string)
    ensures ItemEvents([WireMessage(ByAssistant, [text])]) == [Said(ByAssistant, text)]
  {
    OneItem(WireMessage(ByAssistant, [text]));
  }

  lemma AssistantEvents(content: Content, calls: seq<RawCall>)
    requires ResponsesOne(Assistant(content, calls)).Some?
    ensures ItemEvents(ResponsesOne(Assistant(content, calls)).value) == MsgEvents(Assistant(content, calls))
  {
    CallItemsEvents(calls);
    var items := WireCalls(calls).value;
    if content.Text? && content.text != "" {
      SpokenItem(content.text);
      ItemEventsAppend([WireMessage(ByAssistant, [content.text])], items);
    } else {
      assert [] + items == items && ContentEvents(ByAssistant, content) == [];
      assert [] + AskedAll(calls) == AskedAll(calls);
    }
  }

  lemma ResponsesOneEvents(m: Msg)
    requires ResponsesOne(m).Some?
    ensures ItemEvents(ResponsesOne(m).value) == MsgEvents(m)
  {
    match m
    case Assistant(content, calls) => AssistantEvents(content, calls);
    case ItemCall(id, name, arguments) => CallItemsEvents([RawCall(id, name, arguments)]);
    case Plain(speaker, content) => OneItem(WireMessage(speaker, [content.text]));
    case ItemMessage(texts) => OneItem(WireMessage(ByAssistant, texts));
    case ItemOutput(id, output) => OneItem(WireOutput(id, output));
    case Tool(id, content) => OneItem(WireOutput(id, content.text));
  }

  /** The translation to Responses input says exactly what the history says: every
      text, question and answer, in the same order, nothing added. */
  lemma {:induction false} ResponsesKeepsMeaning(msgs: seq<Msg>)
    requires ResponsesInput(msgs).Some?
    ensures ItemEvents(ResponsesInput(msgs).value) == Events(msgs)
    decreases |msgs|
  {
    if msgs != [] {
      var front, last := msgs[..|msgs| - 1], msgs[|msgs| - 1];
      ResponsesKeepsMeaning(front);
      ResponsesOneEvents(last);
      ItemEventsAppend(ResponsesInput(front).value, ResponsesOne(last).value);
    }
  }

  // ---- Anthropic input ---------------------------------------------------

  /** An Anthropic message: a turn, or the user message that carries tool results. */
  datatype AMsg = Turn(speaker: Speaker, content: Content) | Results(results: seq<Block>)

  datatype Building = Building(system: seq<string>, result: seq<AMsg>, pending: seq<Block>)

  function Flush(b: Building): Building {
    if b.pending == [] then b else b.(result := b.result + [Results(b.pending)], pending := [])
  }

  function TextBlocks(texts: seq<string>): seq<Block> {
    seq(|texts|, i requires 0 <= i < |texts| => TextBlock(texts[i]))
  }

  /** How a message that is neither system nor tool appears, None when refused. */
  function AsTurn(m: Msg): Option<AMsg> {
    match m
    case Plain(speaker, content) => if speaker.ByUser? && !content.Absent? then Some(Turn(ByUser, content)) else None
    case Assistant(content, _) => if content.Absent? then None else Some(Turn(ByAssistant, content))
    case ItemMessage(texts) => Some(Turn(ByAssistant, Blocks(TextBlocks(texts))))
    case _ => None
  }

  predicate IsSystem(m: Msg) {
    m.Plain? && (m.speaker.BySystem? || m.speaker.ByDeveloper?)
  }

  function AddOne(b: Building, m: Msg): Option<Building> {
    if IsSystem(m) then (if m.content.Text? then Some(b.(system := b.system + [m.content.text])) else None)
    else if m.Tool? then
      (if m.callId != "" && m.content.Text? then Some(b.(pending := b.pending + [ToolResult(m.callId, m.content.text)])) else None)
    else if AsTurn(m).None? then None
    else Some(Flush(b).(result := Flush(b).result + [AsTurn(m).value]))
  }

  function AddAll(msgs: seq<Msg>): Option<Building>
    decreases |msgs|
  {
    if msgs == [] then Some(Building([], [], []))
    else
      var b := AddAll(msgs[..|msgs| - 1]);
      if b.None? then None else AddOne(b.value, msgs[|msgs| - 1])
  }

  function JoinNonEmpty(parts: seq<string>): string
    decreases |parts|
  {
    if parts == [] then ""
    else
      var front, last := JoinNonEmpty(parts[..|parts| - 1]), parts[|parts| - 1];
      if last == "" then front else if front == "" then last else front + "\n\n" + last
  }

  function AnthropicInput(msgs: seq<Msg>): Option<(string, seq<AMsg>)> {
    var b := AddAll(msgs);
    if b.None? || Flush(b.value).result == [] then None
    else Some((JoinNonEmpty(b.value.system), Flush(b.value).result))
  }

  /** The pieces of a message: a group of results falls apart into its blocks. */
  function Pieces(a: AMsg): seq<AMsg> {
    match a
    case Turn(_, _) => [a]
    case Results(rs) => seq(|rs|, i requires 0 <= i < |rs| => Results([rs[i]]))
  }

  function Ungroup(msgs: seq<AMsg>): seq<AMsg>
    decreases |msgs|
  {
    if msgs == [] then [] else Ungroup(msgs[..|msgs| - 1]) + Pieces(msgs[|msgs| - 1])
  }

  /** The non-system messages one by one, each tool message as one result block. */
  function OneByOne(msgs: seq<Msg>): seq<AMsg>
    decreases |msgs|
  {
    if msgs == [] then []
    else
      var front, m := OneByOne(msgs[..|msgs| - 1]), msgs[|msgs| - 1];
      if IsSystem(m) then front
      else if m.Tool? then front + [Results([ToolResult(m.callId, if m.content.Text? then m.content.text else "")])]
      else if AsTurn(m).Some? then front + [AsTurn(m).value]
      else front
  }

  /** Result groups are non-empty and never adjacent. */
  ghost predicate WellGrouped(msgs: seq<AMsg>) {
    && (forall i :: 0 <= i < |msgs| && msgs[i].Results? ==> msgs[i].results != [])
    && (forall i :: 0 < i < |msgs| ==> msgs[i - 1].Turn? || msgs[i].Turn?)
  }

  lemma UngroupSnoc(msgs: seq<AMsg>, a: AMsg)
    ensures Ungroup(msgs + [a]) == Ungroup(msgs) + Pieces(a)
  {
    assert (msgs + [a])[..|msgs|] == msgs;
  }

  lemma FlushUngroups(b: Building)
    requires WellGrouped(b.result) && (b.pending != [] && b.result != [] ==> b.result[|b.result| - 1].Turn?)
    ensures Ungroup(Flush(b).result) == Ungroup(b.result) + Pieces(Results(b.pending))
    ensures WellGrouped(Flush(b).result)
  {
    if b.pending != [] { UngroupSnoc(b.result, Results(b.pending)); }
  }

  /** What has been built so far, taken apart, is the history so far one by one. */
  ghost predicate Regrouped(b: Building, pieces: seq<AMsg>) {
    && Ungroup(b.result) + Pieces(Results(b.pending)) == pieces
    && WellGrouped(b.result) && (b.result != [] ==> b.result[|b.result| - 1].Turn?)
  }

  lemma AddToolRegroups(b: Building, r: Block, pieces: seq<AMsg>)
    requires Regrouped(b, pieces)
    ensures Regrouped(b.(pending := b.pending + [r]), pieces + [Results([r])])
  {
    assert Pieces(Results(b.pending + [r])) == Pieces(Results(b.pending)) + [Results([r])];
    Assoc(Ungroup(b.result), Pieces(Results(b.pending)), [Results([r])]);
  }

  lemma AddTurnRegroups(b: Building, t: AMsg, pieces: seq<AMsg>)
    requires Regrouped(b, pieces) && t.Turn?
    ensures Regrouped(Flush(b).(result := Flush(b).result + [t]), pieces + [t])
  {
    FlushUngroups(b);
    TurnRegroups(Flush(b), t, pieces);
  }

  lemma TurnRegroups(b: Building, t: AMsg, pieces: seq<AMsg>)
    requires Ungroup(b.result) == pieces && WellGrouped(b.result) && b.pending == [] && t.Turn?
    ensures Regrouped(b.(result := b.result + [t]), pieces + [t])
  {
    UngroupSnoc(b.result, t);
    assert Pieces(Results([])) == [] && pieces + [t] + [] == pieces + [t];
  }

  lemma {:induction false} AddAllRegroups(msgs: seq<Msg>)
    requires AddAll(msgs).Some?
    ensures Regrouped(AddAll(msgs).value, OneByOne(msgs))
    decreases |msgs|
  {
    if msgs != [] {
      var front, m := msgs[..|msgs| - 1], msgs[|msgs| - 1];
      AddAllRegroups(front);
      var b := AddAll(front).value;
      if m.Tool? {
        AddToolRegroups(b, ToolResult(m.callId, m.content.text), OneByOne(front));
      } else if !IsSystem(m) {
        AddTurnRegroups(b, AsTurn(m).value, OneByOne(front));
      }
    }
  }

  /** The Anthropic translation only regroups: taken apart, its groups give back the
      non-system messages in order, role and content kept, one result block for each
      tool message; groups are never adjacent. */
  lemma AnthropicOnlyRegroups(msgs: seq<Msg>)
    requires AnthropicInput(msgs).Some?
    ensures Ungroup(AnthropicInput(msgs).value.1) == OneByOne(msgs) && WellGrouped(AnthropicInput(msgs).value.1)
  {
    AddAllRegroups(msgs);
    FlushUngroups(AddAll(msgs).value);
  }

  // ---- The translators as they run --------------------------------------

  lemma {:induction false} RefusedPrefix(msgs: seq<Msg>, n: nat)
    requires n <= |msgs|
    ensures ResponsesInput(msgs[..n]).None? ==> ResponsesInput(msgs).None?
    ensures AddAll(msgs[..n]).None? ==> AddAll(msgs).None?
    decreases |msgs|
  {
    if n < |msgs| {
      var front := msgs[..|msgs| - 1];
      assert front[..n] == msgs[..n];
      RefusedPrefix(front, n);
    } else {
      assert msgs[..n] == msgs;
    }
  }

  /** The inner loop over an assistant message's calls. */
  method AppendCalls(result: seq<Item>, calls: seq<RawCall>) returns (r: Option<seq<Item>>)
    ensures r == if WireCalls(calls).None? then None else Some(result + WireCalls(calls).value)
  {
    var items := result;
    for i := 0 to |calls|
      invariant forall k :: 0 <= k < i ==> CallOk(calls[k])
      invariant items == result + seq(i, k requires 0 <= k < i && CallOk(calls[k]) => WireCall(calls[k].id, calls[k].name, calls[k].arguments.text))
    {
      if !CallOk(calls[i]) { return None; }
      items := items + [WireCall(calls[i].id, calls[i].name, calls[i].arguments.text)];
    }
    return Some(items);
  }

  /** One message appended, or the error raised for it. */
  method AppendResponses(result: seq<Item>, m: Msg) returns (r: Option<seq<Item>>)
    ensures r == if ResponsesOne(m).None? then None else Some(result + ResponsesOne(m).value)
  {
    match m
    case Assistant(content, calls) =>
      var items := result;
      if !(content.Absent? || content == Text("") || content == Blocks([])) {
        if !content.Text? { return None; }
        items := items + [WireMessage(ByAssistant, [content.text])];
      }
      r := AppendCalls(items, calls);
      if r.Some? {
        assert r.value == result + ResponsesOne(m).value;
      }
    case ItemCall(id, name, arguments) =>
      r := AppendCalls(result, [RawCall(id, name, arguments)]);
    case ItemOutput(id, output) =>
      r := if id != "" then Some(result + [WireOutput(id, output)]) else None;
    case ItemMessage(texts) =>
      r := Some(result + [WireMessage(ByAssistant, texts)]);
    case Plain(speaker, content) =>
      r := if content.Text? && !speaker.ByAssistant? then Some(result + [WireMessage(speaker, [content.text])]) else None;
    case Tool(id, content) =>
      r := if id != "" && content.Text? then Some(result + [WireOutput(id, content.text)]) else None;
  }

  method TranslateResponses(messages: seq<Msg>) returns (r: Option<seq<Item>>)
    ensures r == ResponsesInput(messages)
  {
    var result: seq<Item> := [];
    for i := 0 to |messages|
      invariant ResponsesInput(messages[..i]) == Some(result)
    {
      assert messages[..i + 1][..i] == messages[..i];
      var more := AppendResponses(result, messages[i]);
      if more.None? {
        RefusedPrefix(messages, i + 1);
        return None;
      }
      result := more.value;
    }
    assert messages[..|messages|] == messages;
    return Some(result);
  }

  method TranslateAnthropic(messages: seq<Msg>) returns (r: Option<(string, seq<AMsg>)>)
    ensures r == AnthropicInput(messages)
  {
    var system: seq<string>, result: seq<AMsg>, pending: seq<Block> := [], [], [];
    for i := 0 to |messages|
      invariant AddAll(messages[..i]) == Some(Building(system, result, pending))
    {
      assert messages[..i + 1][..i] == messages[..i];
      RefusedPrefix(messages, i + 1);
      var m := messages[i];
      if IsSystem(m) {
        if !m.content.Text? { return None; }
        system := system + [m.content.text];
      } else if m.Tool? {
        if m.callId == "" || !m.content.Text? { return None; }
        pending := pending + [ToolResult(m.callId, m.content.text)];
      } else {
        if pending != [] {
          result, pending := result + [Results(pending)], [];
        }
        if AsTurn(m).None? { return None; }
        result := result + [AsTurn(m).value];
      }
    }
    assert messages[..|messages|] == messages;
    if pending != [] {
      result := result + [Results(pending)];
    }
    if result == [] { return None; }
    var text := "";
    for i := 0 to |system|
      invariant text == JoinNonEmpty(system[..i])
    {
      assert system[..i + 1][..i] == system[..i];
      if system[i] != "" {
        text := if text == "" then system[i] else text + "\n\n" + system[i];
      }
    }
    assert system[..|system|] == system;
    return Some((text, result));
  }
}
