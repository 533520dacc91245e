/** The loop's requests on the wire: pairing survives both translations. */
module ToolLoopWire {
  import opened SafeWrite
  import opened Protocol
  import opened Sequences
  import opened Pairing
  import opened Replies
  import opened ToolLoop
  import opened ToolLoopProofs

  // ---- Responses ---------------------------------------------------------

  lemma ResponsesSnoc(msgs: seq<Msg>, m: Msg)
    ensures ResponsesInput(msgs + [m]).Some? <==> ResponsesInput(msgs).Some? && ResponsesOne(m).Some?
  {
    assert (msgs + [m])[..|msgs|] == msgs;
  }

  lemma {:induction false} ResponsesAppend(a: seq<Msg>, b: seq<Msg>)
    ensures ResponsesInput(a + b).Some? <==> ResponsesInput(a).Some? && ResponsesInput(b).Some?
    decreases |b|
  {
    if b == [] {
      assert a + b == a;
    } else {
      var front, last := b[..|b| - 1], b[|b| - 1];
      ResponsesAppend(a, front);
      ResponsesSnoc(a + front, last);
      ResponsesSnoc(front, last);
      assert b == front + [last] && a + b == (a + front) + [last];
    }
  }

  predicate AllNamed(calls: seq<RawCall>) {
    forall i :: 0 <= i < |calls| ==> calls[i].id != ""
  }

  predicate AllCallsOk(calls: seq<RawCall>) {
    forall i :: 0 <= i < |calls| ==> CallOk(calls[i])
  }

  /** Items that can be sent, and ids to answer to. */
  predicate ResponsesReady(d: Decision) {
    d.calls != [] ==> ResponsesInput(d.items).Some? && AllNamed(d.calls)
  }

  lemma {:induction false} ExecuteStaysSendable(l: Loop, calls: seq<RawCall>, i: nat, relayed: bool, step: Step)
    requires i <= |calls| && ResponsesInput(l.history).Some? && AllNamed(calls)
    ensures ResponsesInput(Execute(l, calls, i, relayed, step).history).Some?
    decreases |calls| - i
  {
    if i == |calls| {
    } else if relayed && calls[i].name == NATIVE_ONLY {
      ExecuteStaysSendable(l, calls, i + 1, relayed, step);
    } else if step.stop != AtCall(i) {
      var after := Answer(l, calls[i], RunAt(step, i));
      ResponsesSnoc(l.history, Tool(calls[i].id, Text(ToolText(RunAt(step, i)))));
      if after.outcome.Running? {
        ExecuteStaysSendable(after, calls, i + 1, relayed, step);
      }
    }
  }

  lemma BatchStaysSendable(l: Loop, items: seq<Msg>, calls: seq<RawCall>, relayed: bool, step: Step)
    requires ResponsesInput(l.history).Some? && ResponsesInput(items).Some? && AllNamed(calls)
    ensures ResponsesInput(Execute(l.(history := l.history + items, used := true), calls, 0, relayed, step).history).Some?
  {
    ResponsesAppend(l.history, items);
    ExecuteStaysSendable(l.(history := l.history + items, used := true), calls, 0, relayed, step);
  }

  lemma AdvanceStaysSendable(l: Loop, step: Step)
    requires ResponsesInput(l.history).Some? && ResponsesReady(step.decision) && AllCallsOk(step.relay)
    ensures ResponsesInput(Advance(l, step).history).Some?
  {
    var m := l.(requests := l.requests + [l.history]);
    if step.decision.calls != [] {
      BatchStaysSendable(m, step.decision.items, step.decision.calls, false, step);
    } else {
      var asked := Assistant(Text(step.display), step.relay);
      assert [asked][..0] == [];
      assert ResponsesOne(asked).Some?;
      assert AllNamed(step.relay) by {
        forall i | 0 <= i < |step.relay| ensures step.relay[i].id != "" { assert CallOk(step.relay[i]); }
      }
      BatchStaysSendable(m, [asked], step.relay, true, step);
    }
  }

  ghost predicate AllSendable(requests: seq<seq<Msg>>) {
    forall k :: 0 <= k < |requests| ==> ResponsesInput(requests[k]).Some?
  }

  lemma {:induction false} RunStaysSendable(history: seq<Msg>, steps: seq<Step>)
    requires ResponsesInput(history).Some?
    requires forall k :: 0 <= k < |steps| ==> ResponsesReady(steps[k].decision) && AllCallsOk(steps[k].relay)
    ensures ResponsesInput(After(history, steps).history).Some? && AllSendable(After(history, steps).requests)
    decreases |steps|
  {
    if steps != [] {
      var front, step := steps[..|steps| - 1], steps[|steps| - 1];
      assert forall k :: 0 <= k < |front| ==> front[k] == steps[k];
      RunStaysSendable(history, front);
      AdvanceStaysSendable(After(history, front), step);
      AdvanceRequests(After(history, front), step);
    }
  }

  /** No request of a run is refused by the Responses translation, and on the wire
      every function_call is answered by its function_call_output, in order, before
      anything else -- up to the first request after a skipped relay call. */
  lemma ResponsesRequestsArePaired(history: seq<Msg>, steps: seq<Step>)
    requires ResponsesInput(history).Some? && Balanced(Events(history)) && AllFaithful(steps)
    requires forall k :: 0 <= k < |steps| ==> ResponsesReady(steps[k].decision) && AllCallsOk(steps[k].relay)
    ensures var requests := Run(history, steps).requests;
      && AllSendable(requests) && |requests| <= |steps|
      && ((forall k :: 0 <= k < |requests| ==> Balanced(ItemEvents(ResponsesInput(requests[k]).value)))
            <==> NoSkips(steps, |requests| - 1))
  {
    RunStaysSendable(history, steps);
    RequestsArePaired(history, steps);
    var requests := Run(history, steps).requests;
    forall k | 0 <= k < |requests| ensures ItemEvents(ResponsesInput(requests[k]).value) == Events(requests[k]) {
      ResponsesKeepsMeaning(requests[k]);
    }
    if forall k :: 0 <= k < |requests| ==> Balanced(ItemEvents(ResponsesInput(requests[k]).value)) {
      forall k | 0 <= k < |requests| ensures Balanced(Events(requests[k])) {
        assert Balanced(ItemEvents(ResponsesInput(requests[k]).value));
      }
    }
  }

  lemma {:induction false} TakenCallsAreNamed(output: seq<Output>, decodes: string -> bool)
    requires TakeOutputs(output, decodes).Some?
    ensures AllNamed(TakeOutputs(output, decodes).value.calls)
    decreases |output|
  {
    if output != [] { TakenCallsAreNamed(output[..|output| - 1], decodes); }
  }

  /** Every decision made from a Responses reply whose arguments were text can be sent back. */
  lemma ResponsesDecisionReady(output: seq<Output>, decodes: string -> bool, strip: string -> string, leaked: string -> bool)
    requires !decodes("") && NormalizeResponses(true, output, decodes).Some?
    ensures var r := NormalizeResponses(true, output, decodes).value;
      var d := Decide(r, strip, leaked);
      && Faithful(d) && d.calls == r.calls
      && (AllJson(r.calls) ==> ResponsesReady(d))
      && (r.calls != [] && !AllJson(r.calls) ==> !ResponsesReady(d))
  {
    var r := NormalizeResponses(true, output, decodes).value;
    ResponsesCarries(true, output, decodes);
    TurnIsFaithful(r, strip, leaked);
    TakeOutputsComeBack(output, decodes);
    TakenCallsAreNamed(output, decodes);
    assert StrippedAll(r.items, strip) == r.items;
  }

  // ---- Anthropic Messages ------------------------------------------------

  /** One assistant message of blocks, and ids to answer to. */
  predicate AnthropicReady(d: Decision) {
    d.calls != [] ==> |d.items| == 1 && d.items[0].Assistant? && d.items[0].content.Blocks? && AllNamed(d.calls)
  }

  /** The result blocks for the calls from index i on, all executed. */
  function ResultBlocks(calls: seq<RawCall>, i: nat, relayed: bool, step: Step): seq<Block>
    requires i <= |calls|
    decreases |calls| - i
  {
    if i == |calls| then []
    else if relayed && calls[i].name == NATIVE_ONLY then ResultBlocks(calls, i + 1, relayed, step)
    else [ToolResult(calls[i].id, ToolText(RunAt(step, i)))] + ResultBlocks(calls, i + 1, relayed, step)
  }

  function Group(results: seq<Block>): seq<AMsg> {
    if results == [] then [] else [Results(results)]
  }

  /** What one completed step adds to the wire messages. */
  function Round(step: Step): seq<AMsg> {
    if step.decision.calls != [] then
      (if step.decision.items == [] || !step.decision.items[0].Assistant? then []
       else [Turn(ByAssistant, step.decision.items[0].content)] + Group(ResultBlocks(step.decision.calls, 0, false, step)))
    else [Turn(ByAssistant, Text(step.display))] + Group(ResultBlocks(step.relay, 0, true, step))
  }

  function Rounds(steps: seq<Step>): seq<AMsg>
    decreases |steps|
  {
    if steps == [] then [] else Rounds(steps[..|steps| - 1]) + Round(steps[|steps| - 1])
  }

  lemma AddAllSnoc(msgs: seq<Msg>, m: Msg)
    ensures AddAll(msgs + [m]) == if AddAll(msgs).None? then None else AddOne(AddAll(msgs).value, m)
  {
    assert (msgs + [m])[..|msgs|] == msgs;
  }

  lemma {:induction false} ExecuteCollects(l: Loop, calls: seq<RawCall>, i: nat, relayed: bool, step: Step, b: Building)
    requires i <= |calls| && AllNamed(calls) && AddAll(l.history) == Some(b)
    requires Execute(l, calls, i, relayed, step).outcome.Running?
    ensures AddAll(Execute(l, calls, i, relayed, step).history)
         == Some(b.(pending := b.pending + ResultBlocks(calls, i, relayed, step)))
    decreases |calls| - i
  {
    if i == |calls| {
      assert b.pending + [] == b.pending;
    } else if relayed && calls[i].name == NATIVE_ONLY {
      ExecuteCollects(l, calls, i + 1, relayed, step, b);
    } else {
      var r := ToolResult(calls[i].id, ToolText(RunAt(step, i)));
      AddAllSnoc(l.history, Tool(calls[i].id, Text(ToolText(RunAt(step, i)))));
      ExecuteCollects(Answer(l, calls[i], RunAt(step, i)), calls, i + 1, relayed, step, b.(pending := b.pending + [r]));
      Assoc(b.pending, [r], ResultBlocks(calls, i + 1, relayed, step));
    }
  }

  /** A history that translates to this system text and these messages. */
  ghost predicate Sends(history: seq<Msg>, system: seq<string>, wire: seq<AMsg>) {
    AddAll(history).Some? && AddAll(history).value.system == system && Flush(AddAll(history).value).result == wire
  }

  lemma BatchSends(l: Loop, m: Msg, calls: seq<RawCall>, relayed: bool, step: Step, system: seq<string>, wire: seq<AMsg>)
    requires Sends(l.history, system, wire) && m.Assistant? && AsTurn(m).Some? && AllNamed(calls)
    ensures var f := Execute(l.(history := l.history + [m], used := true), calls, 0, relayed, step);
      f.outcome.Running? ==>
        Sends(f.history, system, wire + ([AsTurn(m).value] + Group(ResultBlocks(calls, 0, relayed, step))))
  {
    var n := l.(history := l.history + [m], used := true);
    if Execute(n, calls, 0, relayed, step).outcome.Running? {
      AddAllSnoc(l.history, m);
      var b := Building(system, wire + [AsTurn(m).value], []);
      assert AddAll(n.history) == Some(b);
      ExecuteCollects(n, calls, 0, relayed, step, b);
      assert [] + ResultBlocks(calls, 0, relayed, step) == ResultBlocks(calls, 0, relayed, step);
      Assoc(wire, [AsTurn(m).value], Group(ResultBlocks(calls, 0, relayed, step)));
      assert (wire + [AsTurn(m).value]) + [] == wire + [AsTurn(m).value];
    }
  }

  lemma AdvanceSends(l: Loop, step: Step, system: seq<string>, wire: seq<AMsg>)
    requires l.outcome.Running? && Sends(l.history, system, wire) && AnthropicReady(step.decision) && AllCallsOk(step.relay)
    ensures Advance(l, step).outcome.Running? ==> Sends(Advance(l, step).history, system, wire + Round(step))
  {
    var m := l.(requests := l.requests + [l.history]);
    if step.decision.calls != [] {
      var said := step.decision.items[0];
      assert step.decision.items == [said];
      BatchSends(m, said, step.decision.calls, false, step, system, wire);
    } else {
      assert AllNamed(step.relay) by {
        forall i | 0 <= i < |step.relay| ensures step.relay[i].id != "" { assert CallOk(step.relay[i]); }
      }
      BatchSends(m, Assistant(Text(step.display), step.relay), step.relay, true, step, system, wire);
    }
  }

  ghost predicate SendsRounds(request: seq<Msg>, steps: seq<Step>, k: nat, system: seq<string>, wire: seq<AMsg>)
    requires k <= |steps|
  {
    Sends(request, system, wire + Rounds(steps[..k]))
  }

  ghost predicate RunSends(f: Loop, steps: seq<Step>, system: seq<string>, wire: seq<AMsg>) {
    && |f.requests| <= |steps|
    && (forall k :: 0 <= k < |f.requests| ==> SendsRounds(f.requests[k], steps, k, system, wire))
    && (f.outcome.Running? ==> |f.requests| == |steps| && SendsRounds(f.history, steps, |steps|, system, wire))
  }

  lemma SendsMore(f: Loop, front: seq<Step>, step: Step, system: seq<string>, wire: seq<AMsg>)
    requires RunSends(f, front, system, wire)
    ensures forall k :: 0 <= k < |f.requests| ==> SendsRounds(f.requests[k], front + [step], k, system, wire)
    ensures f.outcome.Running? ==> SendsRounds(f.history, front + [step], |front|, system, wire)
  {
    var steps := front + [step];
    forall k | 0 <= k < |f.requests| ensures SendsRounds(f.requests[k], steps, k, system, wire) {
      assert SendsRounds(f.requests[k], front, k, system, wire) && front[..k] == steps[..k];
    }
    assert front[..|front|] == front == steps[..|front|];
  }

  lemma AdvanceSendsRounds(f: Loop, front: seq<Step>, step: Step, system: seq<string>, wire: seq<AMsg>)
    requires f.outcome.Running? && RunSends(f, front, system, wire)
    requires AnthropicReady(step.decision) && AllCallsOk(step.relay)
    ensures RunSends(Advance(f, step), front + [step], system, wire)
  {
    var g, steps := Advance(f, step), front + [step];
    SendsMore(f, front, step, system, wire);
    AdvanceRequests(f, step);
    assert front[..|front|] == front;
    AdvanceSends(f, step, system, wire + Rounds(front));
    Assoc(wire, Rounds(front), Round(step));
    assert steps[..|steps|] == steps && steps[..|front|] == front;
    forall k | 0 <= k < |g.requests| ensures SendsRounds(g.requests[k], steps, k, system, wire) {
      if k == |front| { assert g.requests[k] == f.history; }
    }
  }

  lemma {:induction false} RunSendsRounds(history: seq<Msg>, steps: seq<Step>, system: seq<string>, wire: seq<AMsg>)
    requires Sends(history, system, wire)
    requires forall k :: 0 <= k < |steps| ==> AnthropicReady(steps[k].decision) && AllCallsOk(steps[k].relay)
    ensures RunSends(After(history, steps), steps, system, wire)
    decreases |steps|
  {
    if steps == [] {
      assert wire + Rounds(steps[..0]) == wire;
    } else {
      var n := |steps| - 1;
      var front, step := steps[..n], steps[n];
      assert forall k :: 0 <= k < n ==> front[k] == steps[k];
      RunSendsRounds(history, front, system, wire);
      assert steps == front + [step];
      if After(history, front).outcome.Running? {
        AdvanceSendsRounds(After(history, front), front, step, system, wire);
      } else {
        SendsMore(After(history, front), front, step, system, wire);
      }
    }
  }

  /** Each request of a run on the Anthropic wire is the translated conversation
      followed by one round for each completed step, system text unchanged. */
  lemma AnthropicRequests(history: seq<Msg>, steps: seq<Step>, k: nat)
    requires AnthropicInput(history).Some? && k < |Run(history, steps).requests|
    requires forall i :: 0 <= i < |steps| ==> AnthropicReady(steps[i].decision) && AllCallsOk(steps[i].relay)
    ensures k < |steps|
    ensures AnthropicInput(Run(history, steps).requests[k])
         == Some((AnthropicInput(history).value.0, AnthropicInput(history).value.1 + Rounds(steps[..k])))
  {
    var b := AddAll(history).value;
    RunSendsRounds(history, steps, b.system, Flush(b).result);
    assert SendsRounds(Run(history, steps).requests[k], steps, k, b.system, Flush(b).result);
  }

  function ResultIds(results: seq<Block>): seq<string> {
    seq(|results|, i requires 0 <= i < |results| => if results[i].ToolResult? then results[i].id else "")
  }

  lemma {:induction false} ResultBlocksAnswer(calls: seq<RawCall>, i: nat, step: Step)
    requires i <= |calls|
    ensures ResultIds(ResultBlocks(calls, i, false, step)) == Ids(calls[i..])
    decreases |calls| - i
  {
    if i < |calls| {
      ResultBlocksAnswer(calls, i + 1, step);
      var rest := ResultBlocks(calls, i + 1, false, step);
      var r := ToolResult(calls[i].id, ToolText(RunAt(step, i)));
      assert ResultIds([r] + rest) == [calls[i].id] + ResultIds(rest);
      assert Ids(calls[i..]) == [calls[i].id] + Ids(calls[i + 1..]);
    }
  }

  function TurnQuestions(a: AMsg): seq<string> {
    if a.Turn? then Ids(Questions(ContentEvents(a.speaker, a.content))) else []
  }

  /** A native round is the assistant's turn and right after it one user message that
      answers exactly the ids the turn asks, in order. */
  lemma NativeRoundIsPaired(step: Step)
    requires step.decision.calls != [] && Faithful(step.decision) && AnthropicReady(step.decision)
    requires step.decision.items[0].calls == []
    ensures |Round(step)| == 2 && Round(step)[0].Turn? && Round(step)[0].speaker.ByAssistant? && Round(step)[1].Results?
    ensures TurnQuestions(Round(step)[0]) == Ids(step.decision.calls) == ResultIds(Round(step)[1].results)
  {
    var calls, said := step.decision.calls, step.decision.items[0];
    ResultBlocksAnswer(calls, 0, step);
    assert calls[0..] == calls;
    assert |Ids(calls)| > 0;
    assert step.decision.items == [said];
    EventsOne(said);
    assert MsgEvents(said) == ContentEvents(ByAssistant, said.content);
  }

  /** A relay round asks nothing on this wire -- chat-shaped calls are not translated --
      so whatever it answers was never asked. */
  lemma RelayRoundAsksNothing(step: Step)
    requires TakesRelay(step)
    ensures Round(step)[0] == Turn(ByAssistant, Text(step.display)) && TurnQuestions(Round(step)[0]) == []
    ensures !(forall i :: 0 <= i < |step.relay| ==> step.relay[i].name == NATIVE_ONLY) ==>
      |Round(step)| == 2 && Round(step)[1].Results? && Round(step)[1].results != []
  {
    OnlyAsksSaid([step.display]);
    assert ContentEvents(ByAssistant, Text(step.display)) == if step.display == "" then [] else SaidAll(ByAssistant, [step.display]);
    if i :| 0 <= i < |step.relay| && step.relay[i].name != NATIVE_ONLY {
      SomeResult(step.relay, 0, i, step);
    }
  }

  lemma {:induction false} SomeResult(calls: seq<RawCall>, i: nat, j: nat, step: Step)
    requires i <= j < |calls| && calls[j].name != NATIVE_ONLY
    ensures ResultBlocks(calls, i, true, step) != []
    decreases j - i
  {
    if i < j { SomeResult(calls, i + 1, j, step); }
  }

  /** A turn keeps a message's questions exactly when they are blocks of its content. */
  lemma TurnKeepsQuestions(m: Msg)
    requires AsTurn(m).Some?
    ensures TurnQuestions(AsTurn(m).value) == Ids(Questions(MsgEvents(m))) <==> !(m.Assistant? && m.calls != [])
  {
    match m
    case Assistant(content, calls) =>
      QuestionsOfCalls(calls);
      ReadingAppend(ContentEvents(ByAssistant, content), AskedAll(calls));
      assert |Ids(Questions(MsgEvents(m)))| == |Ids(Questions(ContentEvents(ByAssistant, content)))| + |calls|;
      if calls == [] {
        assert MsgEvents(m) == ContentEvents(ByAssistant, content);
      }
    case ItemMessage(texts) =>
      assert BlockEvents(TextBlocks(texts)) == SaidAll(ByAssistant, texts);
    case Plain(_, _) =>
    case _ =>
  }

  /** Decisions made from an Anthropic reply satisfy what the rounds need. */
  lemma AnthropicDecisionReady(content: seq<AnthropicBlock>, strip: string -> string, leaked: string -> bool)
    requires NormalizeAnthropic(true, content).Some?
    ensures var d := Decide(NormalizeAnthropic(true, content).value, strip, leaked);
      Faithful(d) && AnthropicReady(d) && (d.calls != [] ==> d.items[0].calls == [])
  {
    AnthropicCarries(true, content);
    TurnIsFaithful(NormalizeAnthropic(true, content).value, strip, leaked);
    BlocksAreNamed(content);
  }

  lemma {:induction false} BlocksAreNamed(content: seq<AnthropicBlock>)
    requires TakeBlocks(content).Some?
    ensures AllNamed(TakeBlocks(content).value.calls)
    decreases |content|
  {
    if content != [] { BlocksAreNamed(content[..|content| - 1]); }
  }

  // ---- Pairing of whole runs on the Anthropic wire -----------------------

  function WireEventsOf(a: AMsg): seq<Event> {
    match a
    case Turn(speaker, content) => ContentEvents(speaker, content)
    case Results(results) => BlockEvents(results)
  }

  /** What Anthropic messages say: texts, questions and answers. */
  function WireEvents(msgs: seq<AMsg>): seq<Event>
    decreases |msgs|
  {
    if msgs == [] then [] else WireEvents(msgs[..|msgs| - 1]) + WireEventsOf(msgs[|msgs| - 1])
  }

  lemma WireEventsSnoc(msgs: seq<AMsg>, a: AMsg)
    ensures WireEvents(msgs + [a]) == WireEvents(msgs) + WireEventsOf(a)
  {
    assert (msgs + [a])[..|msgs|] == msgs;
  }

  lemma {:induction false} BrokenStays(evs: seq<Event>)
    ensures Pair(Broken, evs) == Broken
    decreases |evs|
  {
    if evs != [] { BrokenStays(evs[..|evs| - 1]); }
  }

  lemma PairOne(l: Ledger, e: Event)
    ensures Pair(l, [e]) == Note(l, e)
  {
    assert [e][..0] == [];
  }

  lemma {:induction false} ResultsAnswer(calls: seq<RawCall>, i: nat, step: Step)
    requires i <= |calls|
    ensures Pair(Open(Ids(calls[i..]), 0 < i < |calls|), BlockEvents(ResultBlocks(calls, i, false, step))) == Clear
    decreases |calls| - i
  {
    var open := Open(Ids(calls[i..]), 0 < i < |calls|);
    if i == |calls| {
      assert Ids(calls[i..]) == [] && BlockEvents([]) == [];
    } else {
      var text := ToolText(RunAt(step, i));
      var rest := ResultBlocks(calls, i + 1, false, step);
      assert BlockEvents([ToolResult(calls[i].id, text)] + rest) == [Answered(calls[i].id, text)] + BlockEvents(rest);
      PairAppend(open, [Answered(calls[i].id, text)], BlockEvents(rest));
      PairOne(open, Answered(calls[i].id, text));
      IdsFrom(calls, i);
      NotedHead(calls[i].id, Ids(calls[i + 1..]), i > 0, text);
      ResultsAnswer(calls, i + 1, step);
    }
  }

  lemma {:induction false} ResultsAreAnswers(calls: seq<RawCall>, i: nat, relayed: bool, step: Step)
    requires i <= |calls|
    ensures forall b :: b in ResultBlocks(calls, i, relayed, step) ==> b.ToolResult?
    decreases |calls| - i
  {
    if i < |calls| { ResultsAreAnswers(calls, i + 1, relayed, step); }
  }

  /** Answers without a question break the ledger. */
  lemma UnaskedAnswers(results: seq<Block>)
    requires results != [] && forall b :: b in results ==> b.ToolResult?
    ensures Pair(Clear, BlockEvents(results)) == Broken
  {
    var first := results[0];
    assert first in results;
    assert BlockEvents(results) == [Answered(first.id, first.text)] + BlockEvents(results[1..]);
    PairAppend(Clear, [Answered(first.id, first.text)], BlockEvents(results[1..]));
    PairOne(Clear, Answered(first.id, first.text));
    BrokenStays(BlockEvents(results[1..]));
  }

  /** The loop goes on after the step. */
  predicate Continues(step: Step) {
    step.decision.calls != [] || TakesRelay(step)
  }

  /** A relay step that answers one of its calls. */
  predicate RelayAnswers(step: Step) {
    TakesRelay(step) && exists i :: 0 <= i < |step.relay| && step.relay[i].name != NATIVE_ONLY
  }

  /** A decision whose calls are blocks of one assistant message, and ids to answer to. */
  ghost predicate WireReady(step: Step) {
    && AnthropicReady(step.decision) && AllCallsOk(step.relay) && Faithful(step.decision)
    && (step.decision.calls != [] ==> step.decision.items[0].calls == [])
  }

  lemma {:induction false} NoResults(calls: seq<RawCall>, i: nat, step: Step)
    requires i <= |calls| && forall k :: i <= k < |calls| ==> calls[k].name == NATIVE_ONLY
    ensures ResultBlocks(calls, i, true, step) == []
    decreases |calls| - i
  {
    if i < |calls| { NoResults(calls, i + 1, step); }
  }

  lemma RoundEvents(turn: AMsg, results: seq<Block>)
    ensures WireEvents([turn] + Group(results)) == WireEventsOf(turn) + BlockEvents(results)
  {
    WireEventsSnoc([], turn);
    assert [] + [turn] == [turn];
    if results != [] {
      WireEventsSnoc([turn], Results(results));
    } else {
      assert [turn] + [] == [turn] && WireEventsOf(turn) + [] == WireEventsOf(turn);
    }
  }

  lemma ClearAsks(evs: seq<Event>, calls: seq<RawCall>)
    requires OnlyAsks(evs) && Questions(evs) == calls
    ensures Pair(Clear, evs) == Open(Ids(calls), false)
  {
    PairAsks([], evs);
    assert [] + Ids(calls) == Ids(calls);
  }

  lemma TurnEvents(m: Msg)
    requires m.Assistant? && m.calls == []
    ensures Events([m]) == WireEventsOf(Turn(ByAssistant, m.content))
  {
    EventsOne(m);
    assert MsgEvents(m) == ContentEvents(ByAssistant, m.content);
  }

  lemma NativeTurnAsks(step: Step)
    requires WireReady(step) && step.decision.calls != []
    ensures Pair(Clear, WireEventsOf(Turn(ByAssistant, step.decision.items[0].content))) == Open(Ids(step.decision.calls), false)
  {
    var said := step.decision.items[0];
    assert step.decision.items == [said];
    TurnEvents(said);
    ClearAsks(Events([said]), step.decision.calls);
  }

  lemma NativeRoundPairs(step: Step)
    requires WireReady(step) && step.decision.calls != []
    ensures Pair(Clear, WireEvents(Round(step))) == Clear
  {
    var calls := step.decision.calls;
    var turn, results := Turn(ByAssistant, step.decision.items[0].content), ResultBlocks(calls, 0, false, step);
    NativeTurnAsks(step);
    assert calls[0..] == calls;
    ResultsAnswer(calls, 0, step);
    RoundEvents(turn, results);
    PairAppend(Clear, WireEventsOf(turn), BlockEvents(results));
  }

  lemma RelayRoundPairs(step: Step)
    requires TakesRelay(step)
    ensures Pair(Clear, WireEvents(Round(step))) == if RelayAnswers(step) then Broken else Clear
  {
    var turn, results := Turn(ByAssistant, Text(step.display)), ResultBlocks(step.relay, 0, true, step);
    SpeechReads(Some(step.display));
    assert WireEventsOf(turn) == ContentEvents(ByAssistant, ContentOf(Some(step.display)));
    PairAsks([], WireEventsOf(turn));
    assert Ids([]) == [] && [] + Ids([]) == Ids([]);
    RoundEvents(turn, results);
    PairAppend(Clear, WireEventsOf(turn), BlockEvents(results));
    if RelayAnswers(step) {
      var i :| 0 <= i < |step.relay| && step.relay[i].name != NATIVE_ONLY;
      SomeResult(step.relay, 0, i, step);
      ResultsAreAnswers(step.relay, 0, true, step);
      UnaskedAnswers(results);
    } else {
      NoResults(step.relay, 0, step);
      assert BlockEvents([]) == [];
    }
  }

  predicate NoRelayAnswers(steps: seq<Step>, n: int)
    requires n <= |steps|
  {
    forall k :: 0 <= k < n ==> !RelayAnswers(steps[k])
  }

  lemma {:induction false} WireEventsAppend(a: seq<AMsg>, b: seq<AMsg>)
    ensures WireEvents(a + b) == WireEvents(a) + WireEvents(b)
    decreases |b|
  {
    if b == [] {
      assert a + b == a && WireEvents(a) + [] == WireEvents(a);
    } else {
      var front, last := b[..|b| - 1], b[|b| - 1];
      assert b == front + [last] && a + b == (a + front) + [last];
      WireEventsAppend(a, front);
      WireEventsSnoc(a + front, last);
      WireEventsSnoc(front, last);
      Assoc(WireEvents(a), WireEvents(front), WireEventsOf(last));
    }
  }

  lemma RoundPairs(step: Step)
    requires WireReady(step) && Continues(step)
    ensures Pair(Clear, WireEvents(Round(step))) == if RelayAnswers(step) then Broken else Clear
  {
    if step.decision.calls != [] { NativeRoundPairs(step); } else { RelayRoundPairs(step); }
  }

  lemma PairOver(before: seq<AMsg>, round: seq<AMsg>, ends: Ledger)
    requires Pair(Clear, WireEvents(before)) == Clear || Pair(Clear, WireEvents(before)) == Broken
    requires Pair(Clear, WireEvents(round)) == ends
    ensures Pair(Clear, WireEvents(before + round)) == if Pair(Clear, WireEvents(before)) == Clear then ends else Broken
  {
    WireEventsAppend(before, round);
    PairAppend(Clear, WireEvents(before), WireEvents(round));
    BrokenStays(WireEvents(round));
  }

  lemma RoundsSnoc(steps: seq<Step>, m: nat)
    requires m < |steps|
    ensures Rounds(steps[..m + 1]) == Rounds(steps[..m]) + Round(steps[m])
  {
    assert steps[..m + 1][..m] == steps[..m];
  }

  /** What the first n rounds leave open on the wire. */
  function WireLedger(steps: seq<Step>, n: nat): Ledger
    requires n <= |steps|
  {
    Pair(Clear, WireEvents(Rounds(steps[..n])))
  }

  /** A step that can be sent and after which the loop goes on. */
  ghost predicate Passed(steps: seq<Step>, k: nat)
    requires k < |steps|
  {
    WireReady(steps[k]) && Continues(steps[k])
  }

  lemma RoundsPairSnoc(steps: seq<Step>, m: nat)
    requires m < |steps| && Passed(steps, m)
    requires WireLedger(steps, m) == Clear || WireLedger(steps, m) == Broken
    ensures WireLedger(steps, m + 1) == if WireLedger(steps, m) == Clear && !RelayAnswers(steps[m]) then Clear else Broken
  {
    RoundPairs(steps[m]);
    RoundsSnoc(steps, m);
    PairOver(Rounds(steps[..m]), Round(steps[m]), Pair(Clear, WireEvents(Round(steps[m]))));
  }

  lemma NoRelaySnoc(steps: seq<Step>, m: nat)
    requires m < |steps|
    ensures NoRelayAnswers(steps, m + 1) <==> NoRelayAnswers(steps, m) && !RelayAnswers(steps[m])
  {
  }

  /** The wire is paired as long as no relay step answered a call. */
  ghost predicate PairsUnlessAnswered(steps: seq<Step>, n: nat)
    requires n <= |steps|
  {
    WireLedger(steps, n) == if NoRelayAnswers(steps, n) then Clear else Broken
  }

  lemma PairsAtFirst(steps: seq<Step>)
    ensures PairsUnlessAnswered(steps, 0)
  {
    assert steps[..0] == [];
  }

  lemma PairsOnward(steps: seq<Step>, m: nat)
    requires m < |steps| && Passed(steps, m) && PairsUnlessAnswered(steps, m)
    ensures PairsUnlessAnswered(steps, m + 1)
  {
    RoundsPairSnoc(steps, m);
    NoRelaySnoc(steps, m);
  }

  lemma {:induction false} RoundsPair(steps: seq<Step>, n: nat)
    requires n <= |steps| && forall k: nat :: k < n ==> Passed(steps, k)
    ensures PairsUnlessAnswered(steps, n)
    decreases n
  {
    if n == 0 {
      PairsAtFirst(steps);
    } else {
      RoundsPair(steps, n - 1);
      PairsOnward(steps, n - 1);
    }
  }

  ghost predicate Went(f: Loop, steps: seq<Step>) {
    && |f.requests| <= |steps|
    && (forall k :: 0 <= k < |f.requests| - 1 ==> Continues(steps[k]))
    && (f.outcome.Running? ==> |f.requests| == |steps| && forall k :: 0 <= k < |steps| ==> Continues(steps[k]))
  }

  lemma {:induction false} RunWent(history: seq<Msg>, steps: seq<Step>)
    ensures Went(After(history, steps), steps)
    decreases |steps|
  {
    if steps != [] {
      var front, step := steps[..|steps| - 1], steps[|steps| - 1];
      RunWent(history, front);
      assert forall k :: 0 <= k < |front| ==> front[k] == steps[k];
      AdvanceRequests(After(history, front), step);
    }
  }

  ghost predicate WirePaired(history: seq<Msg>) {
    AnthropicInput(history).Some? && Balanced(WireEvents(AnthropicInput(history).value.1))
  }

  lemma WirePairedAt(history: seq<Msg>, steps: seq<Step>, k: nat)
    requires WirePaired(history) && k < |Run(history, steps).requests|
    requires forall i :: 0 <= i < |steps| ==> WireReady(steps[i])
    ensures k < |steps| && (WirePaired(Run(history, steps).requests[k]) <==> NoRelayAnswers(steps, k))
  {
    AnthropicRequests(history, steps, k);
    RunWent(history, steps);
    RoundsPair(steps, k);
    var start, rounds := AnthropicInput(history).value.1, Rounds(steps[..k]);
    WireEventsAppend(start, rounds);
    PairAppend(Clear, WireEvents(start), WireEvents(rounds));
  }

  /** On the Anthropic wire every request of a run is translated and paired -- each
      tool_use answered by its tool_result, in order, before anything else -- if and only
      if no relay step before the last request had a call other than the native-only tool. */
  lemma AnthropicRequestsArePaired(history: seq<Msg>, steps: seq<Step>)
    requires WirePaired(history) && forall i :: 0 <= i < |steps| ==> WireReady(steps[i])
    ensures var requests := Run(history, steps).requests;
      && |requests| <= |steps|
      && ((forall k :: 0 <= k < |requests| ==> WirePaired(requests[k])) <==> NoRelayAnswers(steps, |requests| - 1))
  {
    RunWent(history, steps);
    var requests := Run(history, steps).requests;
    forall k | 0 <= k < |requests| ensures WirePaired(requests[k]) <==> NoRelayAnswers(steps, k) {
      WirePairedAt(history, steps, k);
    }
    if requests != [] && NoRelayAnswers(steps, |requests| - 1) {
      forall k | 0 <= k < |requests| ensures WirePaired(requests[k]) {
        assert NoRelayAnswers(steps, k);
      }
    }
  }
}
