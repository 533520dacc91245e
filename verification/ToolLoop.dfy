/** The bounded tool loop: model decisions, tool executions and the history they build. */
module ToolLoop {
  import opened Protocol
  import opened Replies

  /** One tool execution; an empty text is None.  A raised exception leaves all empty. */
  datatype Execution = Execution(result: string, framed: string, confirm: string)

  const DONE_PREFIX := "工具已执行："
  const NATIVE_ONLY := "manage_self_capability"
  const NO_RESULT := "（工具无结果或执行失败）"

  function ToolText(e: Execution): string {
    if e.confirm != "" then e.confirm else if e.result != "" then e.framed else NO_RESULT
  }

  /** Where the total timeout cancels a step, if it does; or the model call raises. */
  datatype Stop = Nowhere | AtModel | AtRelay | AtCall(index: nat) | ModelRaises

  /** Everything the outside decides in one step: the model's decision (`blank` when
      its text is whitespace), the tail-brace split, the relay's calls, the executions. */
  datatype Step = Step(decision: Decision, blank: bool, display: string, intent: string, relay: seq<RawCall>,
                       runs: seq<Execution>, stop: Stop)

  function RunAt(step: Step, i: nat): Execution {
    if i < |step.runs| then step.runs[i] else Execution("", "", "")
  }

  datatype Outcome = Running | Natural(text: string) | Empty | Confirm(text: string) | Exhausted | Raised

  /** The loop's variables; `requests` and `started` record what was sent and executed. */
  datatype Loop = Loop(history: seq<Msg>, requests: seq<seq<Msg>>, started: seq<string>, used: bool, success: bool, outcome: Outcome)

  function Start(history: seq<Msg>): Loop {
    Loop(history, [], [], false, false, Running)
  }

  function Answer(l: Loop, c: RawCall, e: Execution): Loop {
    l.(history := l.history + [Tool(c.id, Text(ToolText(e)))],
       started := l.started + [c.id],
       success := l.success || (DONE_PREFIX <= e.result && e.confirm == ""),
       outcome := if e.confirm != "" then Confirm(e.confirm) else Running)
  }

  /** Executing the calls from index i on. */
  function Execute(l: Loop, calls: seq<RawCall>, i: nat, relayed: bool, step: Step): Loop
    requires i <= |calls|
    decreases |calls| - i
  {
    if i == |calls| then l
    else if relayed && calls[i].name == NATIVE_ONLY then Execute(l, calls, i + 1, relayed, step)
    else if step.stop == AtCall(i) then l.(started := l.started + [calls[i].id], outcome := Exhausted)
    else
      var after := Answer(l, calls[i], RunAt(step, i));
      if after.outcome.Running? then Execute(after, calls, i + 1, relayed, step) else after
  }

  predicate TakesRelay(step: Step) {
    step.decision.calls == [] && !step.blank && step.intent != "" && step.relay != []
  }

  function Advance(l: Loop, step: Step): Loop {
    var l := l.(requests := l.requests + [l.history]);
    var calls := step.decision.calls;
    if step.stop.AtModel? then l.(outcome := Exhausted)
    else if step.stop.ModelRaises? then l.(outcome := Raised)
    else if calls != [] then
      Execute(l.(history := l.history + step.decision.items, used := true), calls, 0, false, step)
    else if step.blank then l.(outcome := Empty)
    else if step.intent == "" then l.(outcome := Natural(step.decision.content))
    else if step.stop.AtRelay? then l.(outcome := Exhausted)
    else if step.relay == [] then l.(outcome := Natural(step.display))
    else
      Execute(l.(history := l.history + [Assistant(Text(step.display), step.relay)], used := true), step.relay, 0, true, step)
  }

  /** The loop after at most |steps| iterations, before the closing assignment. */
  function After(history: seq<Msg>, steps: seq<Step>): Loop
    decreases |steps|
  {
    if steps == [] then Start(history)
    else
      var l := After(history, steps[..|steps| - 1]);
      if l.outcome.Running? then Advance(l, steps[|steps| - 1]) else l
  }

  /** A whole run with max_steps == |steps|. */
  function Run(history: seq<Msg>, steps: seq<Step>): Loop {
    var l := After(history, steps);
    if l.outcome.Running? then l.(outcome := Exhausted) else l
  }

  // ---- The loop as it runs ----------------------------------------------

  lemma {:induction false} StoppedStays(history: seq<Msg>, steps: seq<Step>, n: nat)
    requires n <= |steps| && !After(history, steps[..n]).outcome.Running?
    ensures After(history, steps) == After(history, steps[..n])
    decreases |steps|
  {
    if n < |steps| {
      var front := steps[..|steps| - 1];
      assert front[..n] == steps[..n];
      StoppedStays(history, front, n);
    } else {
      assert steps[..n] == steps;
    }
  }

  /** The nested loops, with their early returns, compute Run. */
  method RunSteps(messages: seq<Msg>, steps: seq<Step>) returns (l: Loop)
    ensures l == Run(messages, steps)
  {
    l := Start(messages);
    for n := 0 to |steps|
      invariant l == After(messages, steps[..n]) && l.outcome.Running?
    {
      var step := steps[n];
      assert steps[..n + 1][..n] == steps[..n];
      ghost var next := Advance(l, step);
      l := l.(requests := l.requests + [l.history]);
      var calls, relayed := step.decision.calls, false;
      if step.stop.AtModel? {
        l := l.(outcome := Exhausted);
      } else if step.stop.ModelRaises? {
        l := l.(outcome := Raised);
      } else if calls == [] && step.blank {
        l := l.(outcome := Empty);
      } else if calls == [] && step.intent == "" {
        l := l.(outcome := Natural(step.decision.content));
      } else if calls == [] && step.stop.AtRelay? {
        l := l.(outcome := Exhausted);
      } else if calls == [] && step.relay == [] {
        l := l.(outcome := Natural(step.display));
      } else {
        if calls == [] {
          calls, relayed := step.relay, true;
          l := l.(history := l.history + [Assistant(Text(step.display), calls)], used := true);
        } else {
          l := l.(history := l.history + step.decision.items, used := true);
        }
        l := ExecuteCalls(l, calls, relayed, step);
      }
      assert l == next;
      if !l.outcome.Running? {
        StoppedStays(messages, steps, n + 1);
        return;
      }
    }
    assert steps[..|steps|] == steps;
    l := l.(outcome := Exhausted);
  }

  method ExecuteCalls(l: Loop, calls: seq<RawCall>, relayed: bool, step: Step) returns (r: Loop)
    ensures r == Execute(l, calls, 0, relayed, step)
  {
    r := l;
    for i := 0 to |calls|
      invariant Execute(r, calls, i, relayed, step) == Execute(l, calls, 0, relayed, step)
    {
      if relayed && calls[i].name == NATIVE_ONLY { continue; }
      if step.stop == AtCall(i) {
        r := r.(started := r.started + [calls[i].id], outcome := Exhausted);
        return;
      }
      var e := RunAt(step, i);
      r := r.(history := r.history + [Tool(calls[i].id, Text(ToolText(e)))], started := r.started + [calls[i].id]);
      if DONE_PREFIX <= e.result && e.confirm == "" {
        r := r.(success := true);
      }
      if e.confirm != "" {
        r := r.(outcome := Confirm(e.confirm));
        return;
      }
      r := r.(outcome := Running);
    }
  }
}
