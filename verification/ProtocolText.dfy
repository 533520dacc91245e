/** What translated input contains: which histories are accepted, the system text of the
    Anthropic form, and what becomes of each message. */
module ProtocolText {
  import opened SafeWrite
  import opened Sequences
  import opened Protocol

  // ---- accepted histories ------------------------------------------------

  /** A call with id, name and arguments, all non-empty text. */
  predicate Complete(id: string, name: string, arguments: Arguments) {
    id != "" && name != "" && arguments.Json? && arguments.text != ""
  }

  /** What Responses input can carry. */
  ghost predicate ForResponses(m: Msg) {
    match m
    case Plain(speaker, content) => content.Text? && !speaker.ByAssistant?
    case Assistant(content, calls) =>
      && (content.Text? || content.Absent? || content == Blocks([]))
      && forall i :: 0 <= i < |calls| ==> Complete(calls[i].id, calls[i].name, calls[i].arguments)
    case Tool(id, content) => id != "" && content.Text?
    case ItemMessage(_) => true
    case ItemCall(id, name, arguments) => Complete(id, name, arguments)
    case ItemOutput(id, _) => id != ""
  }

  lemma ResponsesOneAccepts(m: Msg)
    ensures ResponsesOne(m).Some? <==> ForResponses(m)
  {
    match m
    case Assistant(content, calls) =>
      if ForResponses(m) {
        forall i | 0 <= i < |calls| ensures CallOk(calls[i]) { assert Complete(calls[i].id, calls[i].name, calls[i].arguments); }
      }
      if ResponsesOne(m).Some? {
        forall i | 0 <= i < |calls| ensures Complete(calls[i].id, calls[i].name, calls[i].arguments) { assert CallOk(calls[i]); }
      }
    case ItemCall(id, name, arguments) => assert [RawCall(id, name, arguments)][0] == RawCall(id, name, arguments);
    case _ =>
  }

  /** A history translates to Responses input if and only if each of its messages can be
      carried. */
  lemma {:induction false} ResponsesAccepts(msgs: seq<Msg>)
    ensures ResponsesInput(msgs).Some? <==> forall i :: 0 <= i < |msgs| ==> ForResponses(msgs[i])
    decreases |msgs|
  {
    if msgs != [] {
      var n := |msgs| - 1;
      ResponsesAccepts(msgs[..n]);
      ResponsesOneAccepts(msgs[n]);
    }
  }

  /** What Anthropic input can carry. */
  predicate ForAnthropic(m: Msg) {
    match m
    case Plain(speaker, content) =>
      if speaker.BySystem? || speaker.ByDeveloper? then content.Text? else speaker.ByUser? && !content.Absent?
    case Assistant(content, _) => !content.Absent?
    case Tool(id, content) => id != "" && content.Text?
    case ItemMessage(_) => true
    case _ => false
  }

  predicate ForSystem(m: Msg) {
    m.Plain? && (m.speaker == BySystem || m.speaker == ByDeveloper)
  }

  lemma {:induction false} AddAllAccepts(msgs: seq<Msg>)
    ensures AddAll(msgs).Some? <==> forall i :: 0 <= i < |msgs| ==> ForAnthropic(msgs[i])
    ensures AddAll(msgs).Some? ==>
      (Flush(AddAll(msgs).value).result == [] <==> forall i :: 0 <= i < |msgs| ==> ForSystem(msgs[i]))
    decreases |msgs|
  {
    if msgs != [] {
      var n := |msgs| - 1;
      AddAllAccepts(msgs[..n]);
      assert AddAll(msgs[..n]).Some? ==> (AddOne(AddAll(msgs[..n]).value, msgs[n]).Some? <==> ForAnthropic(msgs[n]));
    }
  }

  /** A history translates to Anthropic input if and only if each of its messages can be
      carried and some message is for the conversation. */
  lemma AnthropicAccepts(msgs: seq<Msg>)
    ensures AnthropicInput(msgs).Some?
       <==> (forall i :: 0 <= i < |msgs| ==> ForAnthropic(msgs[i])) && (exists i :: 0 <= i < |msgs| && !ForSystem(msgs[i]))
  {
    AddAllAccepts(msgs);
  }

  // ---- the system text ---------------------------------------------------

  /** The non-empty system and developer texts, in order. */
  function SystemTexts(msgs: seq<Msg>): seq<string>
    decreases |msgs|
  {
    if msgs == [] then []
    else
      var m, rest := msgs[0], SystemTexts(msgs[1..]);
      if ForSystem(m) && m.content.Text? && m.content.text != "" then [m.content.text] + rest else rest
  }

  function NonEmpty(parts: seq<string>): seq<string>
    decreases |parts|
  {
    if parts == [] then []
    else NonEmpty(parts[..|parts| - 1]) + (if parts[|parts| - 1] == "" then [] else [parts[|parts| - 1]])
  }

  lemma {:induction false} SystemTextsSnoc(msgs: seq<Msg>, m: Msg)
    ensures SystemTexts(msgs + [m])
         == SystemTexts(msgs) + (if ForSystem(m) && m.content.Text? && m.content.text != "" then [m.content.text] else [])
    decreases |msgs|
  {
    if msgs == [] {
      assert [m][1..] == [] && msgs + [m] == [m];
    } else {
      assert (msgs + [m])[1..] == msgs[1..] + [m];
      SystemTextsSnoc(msgs[1..], m);
      var last := if ForSystem(m) && m.content.Text? && m.content.text != "" then [m.content.text] else [];
    }
  }

  lemma NonEmptySnoc(parts: seq<string>, last: string)
    ensures NonEmpty(parts + [last]) == NonEmpty(parts) + (if last == "" then [] else [last])
  {
    assert (parts + [last])[..|parts|] == parts;
  }

  lemma AddedSystem(b: Building, m: Msg)
    requires AddOne(b, m).Some?
    ensures AddOne(b, m).value.system == if ForSystem(m) then b.system + [m.content.text] else b.system
    ensures ForSystem(m) ==> m.content.Text?
  {
  }

  lemma {:induction false} CollectedTexts(msgs: seq<Msg>)
    requires AddAll(msgs).Some?
    ensures NonEmpty(AddAll(msgs).value.system) == SystemTexts(msgs)
    decreases |msgs|
  {
    if msgs != [] {
      var front, m := msgs[..|msgs| - 1], msgs[|msgs| - 1];
      assert msgs == front + [m];
      CollectedTexts(front);
      SystemTextsSnoc(front, m);
      AddedSystem(AddAll(front).value, m);
      if ForSystem(m) {
        NonEmptySnoc(AddAll(front).value.system, m.content.text);
      } else {
        assert SystemTexts(front) + [] == SystemTexts(front);
      }
    }
  }

  /** Where the i-th part begins, with two characters between neighbours. */
  function Offset(parts: seq<string>, i: nat): nat
    requires i <= |parts|
  {
    if i == 0 then 0 else Offset(parts, i - 1) + |parts[i - 1]| + 2
  }

  predicate Stands(text: string, at: nat, part: string) {
    at + |part| <= |text| && text[at..at + |part|] == part
  }

  /** The part stands at its offset, with an empty line before the next. */
  predicate PartStands(text: string, parts: seq<string>, i: nat)
    requires i < |parts|
  {
    && Stands(text, Offset(parts, i), parts[i])
    && (i + 1 < |parts| ==> Stands(text, Offset(parts, i) + |parts[i]|, "\n\n"))
  }

  /** The text is the parts one after the other, an empty line between neighbours. */
  ghost predicate IsJoined(text: string, parts: seq<string>) {
    && (parts == [] ==> text == "")
    && (parts != [] ==> |text| + 2 == Offset(parts, |parts|))
    && forall i: nat :: i < |parts| ==> PartStands(text, parts, i)
  }

  lemma {:induction false} OffsetPrefix(parts: seq<string>, last: string, i: nat)
    requires i <= |parts|
    ensures Offset(parts + [last], i) == Offset(parts, i)
    decreases i
  {
    if i > 0 { OffsetPrefix(parts, last, i - 1); }
  }

  lemma {:induction false} OffsetGrows(parts: seq<string>, i: nat)
    requires i < |parts|
    ensures Offset(parts, i) + |parts[i]| + 2 <= Offset(parts, |parts|)
    decreases |parts| - i
  {
    if i + 1 < |parts| {
      OffsetGrows(parts, i + 1);
      assert Offset(parts, i + 1) == Offset(parts, i) + |parts[i]| + 2;
    }
  }

  lemma StandsLonger(text: string, at: nat, part: string, more: string)
    requires Stands(text, at, part)
    ensures Stands(text + more, at, part)
  {
    assert (text + more)[at..at + |part|] == text[at..at + |part|];
  }

  lemma StandsAtEnd(text: string, part: string)
    ensures Stands(text + part, |text|, part)
  {
  }

  lemma OldPartStands(text: string, parts: seq<string>, last: string, i: nat)
    requires IsJoined(text, parts) && i < |parts|
    ensures PartStands(text + "\n\n" + last, parts + [last], i)
  {
    var all := parts + [last];
    OffsetPrefix(parts, last, i);
    assert PartStands(text, parts, i);
    Assoc(text, "\n\n", last);
    StandsLonger(text, Offset(parts, i), parts[i], "\n\n" + last);
    if i + 1 < |parts| {
      StandsLonger(text, Offset(parts, i) + |parts[i]|, "\n\n", "\n\n" + last);
    } else {
      StandsAtEnd(text, "\n\n");
      StandsLonger(text + "\n\n", |text|, "\n\n", last);
    }
  }

  lemma JoinedMore(text: string, parts: seq<string>, last: string)
    requires IsJoined(text, parts) && parts != []
    ensures IsJoined(text + "\n\n" + last, parts + [last])
  {
    var longer, all, n := text + "\n\n" + last, parts + [last], |parts|;
    OffsetPrefix(parts, last, n);
    assert Offset(all, n + 1) == Offset(all, n) + |all[n]| + 2;
    forall i: nat | i < n + 1 ensures PartStands(longer, all, i) {
      if i < n {
        OldPartStands(text, parts, last, i);
      } else {
        StandsAtEnd(text + "\n\n", last);
      }
    }
  }

  lemma JoinedFirst(text: string)
    ensures IsJoined(text, [text])
  {
    assert Offset([text], 1) == Offset([text], 0) + |text| + 2;
    forall i: nat | i < 1 ensures PartStands(text, [text], i) { }
  }

  lemma {:induction false} JoinIs(parts: seq<string>)
    ensures IsJoined(JoinNonEmpty(parts), NonEmpty(parts)) && (JoinNonEmpty(parts) == "" <==> NonEmpty(parts) == [])
    decreases |parts|
  {
    if parts != [] {
      var front, last := parts[..|parts| - 1], parts[|parts| - 1];
      assert parts == front + [last];
      JoinIs(front);
      NonEmptySnoc(front, last);
      if last != "" {
        if JoinNonEmpty(front) == "" {
          JoinedFirst(last);
          assert [] + [last] == [last];
        } else {
          JoinedMore(JoinNonEmpty(front), NonEmpty(front), last);
        }
      } else {
        assert NonEmpty(front) + [] == NonEmpty(front);
      }
    }
  }

  /** The system text of the Anthropic form: all non-empty system and developer texts of
      the history, in order, each in its place, one empty line between neighbours, and
      nothing else; empty if there are none. */
  lemma SystemTextIs(msgs: seq<Msg>)
    requires AnthropicInput(msgs).Some?
    ensures IsJoined(AnthropicInput(msgs).value.0, SystemTexts(msgs))
    ensures AnthropicInput(msgs).value.0 == "" <==> SystemTexts(msgs) == []
  {
    CollectedTexts(msgs);
    JoinIs(AddAll(msgs).value.system);
  }

  // ---- the conversation --------------------------------------------------

  function Conversation(msgs: seq<Msg>): seq<Msg>
    decreases |msgs|
  {
    if msgs == [] then []
    else Conversation(msgs[..|msgs| - 1]) + (if ForSystem(msgs[|msgs| - 1]) then [] else [msgs[|msgs| - 1]])
  }

  lemma AddOneWithoutSystem(b: Building, m: Msg)
    requires AddOne(b, m).Some?
    ensures ForSystem(m) ==> AddOne(b, m).value.(system := []) == b.(system := [])
    ensures !ForSystem(m) ==> AddOne(b.(system := []), m) == Some(AddOne(b, m).value.(system := []))
  {
  }

  lemma {:induction false} BuiltWithoutSystem(msgs: seq<Msg>)
    requires AddAll(msgs).Some?
    ensures AddAll(Conversation(msgs)) == Some(AddAll(msgs).value.(system := []))
    decreases |msgs|
  {
    if msgs != [] {
      var front, m := msgs[..|msgs| - 1], msgs[|msgs| - 1];
      BuiltWithoutSystem(front);
      AddOneWithoutSystem(AddAll(front).value, m);
      if ForSystem(m) {
        assert Conversation(front) + [] == Conversation(front);
      } else {
        assert (Conversation(front) + [m])[..|Conversation(front)|] == Conversation(front);
      }
    }
  }

  /** System and developer messages add nothing to the turns: without them the messages
      come out the same, groups included. */
  lemma SystemAddsNoTurns(msgs: seq<Msg>)
    requires AnthropicInput(msgs).Some?
    ensures AnthropicInput(Conversation(msgs)) == Some(("", AnthropicInput(msgs).value.1))
  {
    BuiltWithoutSystem(msgs);
  }

  /** What one message of the conversation becomes. */
  ghost predicate Becomes(m: Msg, a: AMsg) {
    match m
    case Plain(speaker, content) => a == Turn(speaker, content)
    case Assistant(content, _) => a == Turn(ByAssistant, content)
    case ItemMessage(texts) =>
      && a.Turn? && a.speaker == ByAssistant && a.content.Blocks? && |a.content.blocks| == |texts|
      && forall i :: 0 <= i < |texts| ==> a.content.blocks[i] == TextBlock(texts[i])
    case Tool(id, content) => content.Text? && a == Results([ToolResult(id, content.text)])
    case _ => false
  }

  lemma {:induction false} OneByOneIs(msgs: seq<Msg>)
    requires AddAll(msgs).Some?
    ensures |OneByOne(msgs)| == |Conversation(msgs)|
    ensures forall i :: 0 <= i < |Conversation(msgs)| ==> Becomes(Conversation(msgs)[i], OneByOne(msgs)[i])
    decreases |msgs|
  {
    if msgs != [] {
      var front, m := msgs[..|msgs| - 1], msgs[|msgs| - 1];
      OneByOneIs(front);
      if !ForSystem(m) {
        assert Becomes(m, OneByOne(msgs)[|OneByOne(front)|]);
        forall i | 0 <= i < |OneByOne(front)| ensures Becomes(Conversation(msgs)[i], OneByOne(msgs)[i]) {
          assert Becomes(Conversation(front)[i], OneByOne(front)[i]);
        }
      }
    }
  }

  /** The messages of the Anthropic form, result groups taken apart, are those of the
      conversation one for one: each with its speaker and its content, tool messages as
      result blocks with their ids and texts. */
  lemma TurnsAre(msgs: seq<Msg>, i: nat)
    requires AnthropicInput(msgs).Some? && i < |Conversation(msgs)|
    ensures var turns := Ungroup(AnthropicInput(msgs).value.1);
      |turns| == |Conversation(msgs)| && Becomes(Conversation(msgs)[i], turns[i])
  {
    AnthropicOnlyRegroups(msgs);
    OneByOneIs(msgs);
  }
}
