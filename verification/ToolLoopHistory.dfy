/** What a run of the tool loop writes: every message it adds to the conversation, the
    text that answers each call, what it reports in the end. */
module ToolLoopHistory {
  import opened Protocol
  import opened Sequences
  import opened Replies
  import opened ToolLoop
  import opened ToolLoopProofs

  // ---- one batch of calls ------------------------------------------------

  /** The relay leaves the native-only tool out. */
  predicate Executes(calls: seq<RawCall>, relayed: bool, j: nat)
    requires j < |calls|
  {
    !(relayed && calls[j].name == "manage_self_capability")
  }

  /** Call j is come to: no call executed between i and j was cut off or asked to confirm. */
  ghost predicate Reached(calls: seq<RawCall>, i: nat, relayed: bool, step: Step, j: nat) {
    && i <= j < |calls| && Executes(calls, relayed, j)
    && forall k :: i <= k < j && Executes(calls, relayed, k) ==> step.stop != AtCall(k) && RunAt(step, k).confirm == ""
  }

  ghost predicate IsAnswered(calls: seq<RawCall>, i: nat, relayed: bool, step: Step, j: nat) {
    Reached(calls, i, relayed, step, j) && step.stop != AtCall(j)
  }

  /** The message that answers a call: what is asked to be confirmed, else the framed
      result, else that there is none. */
  predicate IsReply(m: Msg, c: RawCall, e: Execution) {
    && m.Tool? && m.callId == c.id && m.content.Text?
    && (e.confirm != "" ==> m.content.text == e.confirm)
    && (e.confirm == "" && e.result != "" ==> m.content.text == e.framed)
    && (e.confirm == "" && e.result == "" ==> m.content.text == "（工具无结果或执行失败）")
  }

  /** The indices of the answered calls, ascending. */
  ghost predicate Lists(idx: seq<nat>, calls: seq<RawCall>, i: nat, relayed: bool, step: Step) {
    && (forall a, b :: 0 <= a < b < |idx| ==> idx[a] < idx[b])
    && (forall j :: j in idx <==> IsAnswered(calls, i, relayed, step, j))
  }

  ghost predicate AllReply(msgs: seq<Msg>, idx: seq<nat>, calls: seq<RawCall>, step: Step) {
    |msgs| == |idx| && forall m :: 0 <= m < |idx| ==> idx[m] < |calls| && IsReply(msgs[m], calls[idx[m]], RunAt(step, idx[m]))
  }

  /** One message for each answered call, in call order, and nothing else. */
  ghost predicate Answering(msgs: seq<Msg>, calls: seq<RawCall>, i: nat, relayed: bool, step: Step) {
    exists idx :: Lists(idx, calls, i, relayed, step) && AllReply(msgs, idx, calls, step)
  }

  lemma ReachedLater(calls: seq<RawCall>, i: nat, relayed: bool, step: Step, j: nat)
    requires i < |calls|
    ensures j > i && (Executes(calls, relayed, i) ==> step.stop != AtCall(i) && RunAt(step, i).confirm == "") ==>
      (Reached(calls, i, relayed, step, j) <==> Reached(calls, i + 1, relayed, step, j))
    ensures j > i && Executes(calls, relayed, i) && (step.stop == AtCall(i) || RunAt(step, i).confirm != "") ==>
      !Reached(calls, i, relayed, step, j)
    ensures Reached(calls, i, relayed, step, i) <==> Executes(calls, relayed, i)
    ensures Reached(calls, i, relayed, step, j) ==> j >= i
  {
  }

  /** Call i is skipped. */
  lemma AnsweringSkip(msgs: seq<Msg>, calls: seq<RawCall>, i: nat, relayed: bool, step: Step)
    requires i < |calls| && !Executes(calls, relayed, i) && Answering(msgs, calls, i + 1, relayed, step)
    ensures Answering(msgs, calls, i, relayed, step)
  {
    var idx :| Lists(idx, calls, i + 1, relayed, step) && AllReply(msgs, idx, calls, step);
    forall j ensures j in idx <==> IsAnswered(calls, i, relayed, step, j) {
      if j >= 0 { ReachedLater(calls, i, relayed, step, j); }
    }
    assert Lists(idx, calls, i, relayed, step);
  }

  lemma AnsweringNone(calls: seq<RawCall>, i: nat, relayed: bool, step: Step)
    requires i <= |calls| && (i < |calls| ==> Executes(calls, relayed, i) && step.stop == AtCall(i))
    ensures Answering([], calls, i, relayed, step)
  {
    forall j: nat ensures !IsAnswered(calls, i, relayed, step, j) {
      if i < |calls| { ReachedLater(calls, i, relayed, step, j); }
    }
    assert Lists([], calls, i, relayed, step) && AllReply([], [], calls, step);
  }

  /** Call i asks to confirm, and is the last. */
  lemma AnsweringLast(m: Msg, calls: seq<RawCall>, i: nat, relayed: bool, step: Step)
    requires i < |calls| && Executes(calls, relayed, i) && step.stop != AtCall(i) && RunAt(step, i).confirm != ""
    requires IsReply(m, calls[i], RunAt(step, i))
    ensures Answering([m], calls, i, relayed, step)
  {
    forall j: nat ensures j in [i] <==> IsAnswered(calls, i, relayed, step, j) {
      ReachedLater(calls, i, relayed, step, j);
    }
    assert Lists([i], calls, i, relayed, step) && AllReply([m], [i], calls, step);
  }

  lemma AnsweringMore(m: Msg, msgs: seq<Msg>, calls: seq<RawCall>, i: nat, relayed: bool, step: Step)
    requires i < |calls| && Executes(calls, relayed, i) && step.stop != AtCall(i) && RunAt(step, i).confirm == ""
    requires IsReply(m, calls[i], RunAt(step, i)) && Answering(msgs, calls, i + 1, relayed, step)
    ensures Answering([m] + msgs, calls, i, relayed, step)
  {
    var idx :| Lists(idx, calls, i + 1, relayed, step) && AllReply(msgs, idx, calls, step);
    var all := [i] + idx;
    forall j: nat ensures j in all <==> IsAnswered(calls, i, relayed, step, j) {
      ReachedLater(calls, i, relayed, step, j);
    }
    forall b | 0 < b < |all| ensures all[b] > i { assert all[b] in idx; }
    assert Lists(all, calls, i, relayed, step) && AllReply([m] + msgs, all, calls, step);
  }

  /** How the batch ends. */
  ghost predicate Ending(calls: seq<RawCall>, i: nat, relayed: bool, step: Step, outcome: Outcome) {
    && (forall j :: IsAnswered(calls, i, relayed, step, j) && RunAt(step, j).confirm != "" ==> outcome == Confirm(RunAt(step, j).confirm))
    && (forall j :: Reached(calls, i, relayed, step, j) && step.stop == AtCall(j) ==> outcome == Exhausted)
    && ((forall j :: Reached(calls, i, relayed, step, j) ==> step.stop != AtCall(j) && RunAt(step, j).confirm == "") ==> outcome == Running)
  }

  /** A tool whose result says that it was done, unless it asks to confirm. */
  predicate Succeeds(e: Execution) {
    "工具已执行：" <= e.result && e.confirm == ""
  }

  ghost predicate SomeSucceeds(calls: seq<RawCall>, i: nat, relayed: bool, step: Step) {
    exists j :: IsAnswered(calls, i, relayed, step, j) && Succeeds(RunAt(step, j))
  }

  /** After a call that lets the batch go on, what is reached is what is reached from the
      next call on. */
  lemma ReachedOnward(calls: seq<RawCall>, i: nat, relayed: bool, step: Step)
    requires i < |calls| && (Executes(calls, relayed, i) ==> step.stop != AtCall(i) && RunAt(step, i).confirm == "")
    ensures forall j: nat :: Reached(calls, i, relayed, step, j)
              <==> (j == i && Executes(calls, relayed, i)) || Reached(calls, i + 1, relayed, step, j)
  {
    forall j: nat ensures Reached(calls, i, relayed, step, j)
        <==> (j == i && Executes(calls, relayed, i)) || Reached(calls, i + 1, relayed, step, j) {
      ReachedLater(calls, i, relayed, step, j);
    }
  }

  lemma EndingLater(calls: seq<RawCall>, i: nat, relayed: bool, step: Step, outcome: Outcome)
    requires i < |calls| && (Executes(calls, relayed, i) ==> step.stop != AtCall(i) && RunAt(step, i).confirm == "")
    requires Ending(calls, i + 1, relayed, step, outcome)
    ensures Ending(calls, i, relayed, step, outcome)
  {
    ReachedOnward(calls, i, relayed, step);
  }

  lemma SucceedsLater(calls: seq<RawCall>, i: nat, relayed: bool, step: Step)
    requires i < |calls| && (Executes(calls, relayed, i) ==> step.stop != AtCall(i) && RunAt(step, i).confirm == "")
    ensures SomeSucceeds(calls, i, relayed, step)
       <==> (Executes(calls, relayed, i) && Succeeds(RunAt(step, i))) || SomeSucceeds(calls, i + 1, relayed, step)
  {
    ReachedOnward(calls, i, relayed, step);
    if SomeSucceeds(calls, i + 1, relayed, step) {
      var j: nat :| IsAnswered(calls, i + 1, relayed, step, j) && Succeeds(RunAt(step, j));
      assert IsAnswered(calls, i, relayed, step, j);
    }
    if Executes(calls, relayed, i) { assert IsAnswered(calls, i, relayed, step, i); }
  }

  ghost predicate Extends(begun: seq<Msg>, after: seq<Msg>, calls: seq<RawCall>, i: nat, relayed: bool, step: Step) {
    exists msgs :: after == begun + msgs && Answering(msgs, calls, i, relayed, step)
  }

  lemma ExtendsBy(begun: seq<Msg>, msgs: seq<Msg>, calls: seq<RawCall>, i: nat, relayed: bool, step: Step)
    requires Answering(msgs, calls, i, relayed, step)
    ensures Extends(begun, begun + msgs, calls, i, relayed, step)
  {
  }

  ghost predicate BatchIs(l: Loop, f: Loop, calls: seq<RawCall>, i: nat, relayed: bool, step: Step) {
    && Extends(l.history, f.history, calls, i, relayed, step)
    && Ending(calls, i, relayed, step, f.outcome)
    && (f.success <==> l.success || SomeSucceeds(calls, i, relayed, step))
    && f.used == l.used
  }

  lemma NoneLeft(l: Loop, calls: seq<RawCall>, relayed: bool, step: Step)
    requires l.outcome.Running?
    ensures BatchIs(l, l, calls, |calls|, relayed, step)
  {
    AnsweringNone(calls, |calls|, relayed, step);
    ExtendsBy(l.history, [], calls, |calls|, relayed, step);
    assert l.history + [] == l.history;
  }

  lemma SkippedOne(l: Loop, f: Loop, calls: seq<RawCall>, i: nat, relayed: bool, step: Step)
    requires i < |calls| && !Executes(calls, relayed, i) && BatchIs(l, f, calls, i + 1, relayed, step)
    ensures BatchIs(l, f, calls, i, relayed, step)
  {
    var msgs :| f.history == l.history + msgs && Answering(msgs, calls, i + 1, relayed, step);
    AnsweringSkip(msgs, calls, i, relayed, step);
    EndingLater(calls, i, relayed, step, f.outcome);
    SucceedsLater(calls, i, relayed, step);
  }

  /** Nothing is reached after call i. */
  lemma OnlyOne(calls: seq<RawCall>, i: nat, relayed: bool, step: Step)
    requires i < |calls| && Executes(calls, relayed, i) && (step.stop == AtCall(i) || RunAt(step, i).confirm != "")
    ensures forall j: nat :: Reached(calls, i, relayed, step, j) <==> j == i
  {
    forall j: nat ensures Reached(calls, i, relayed, step, j) <==> j == i {
      ReachedLater(calls, i, relayed, step, j);
    }
  }

  lemma CutOff(l: Loop, id: string, calls: seq<RawCall>, i: nat, relayed: bool, step: Step)
    requires i < |calls| && Executes(calls, relayed, i) && step.stop == AtCall(i)
    ensures BatchIs(l, l.(started := l.started + [id], outcome := Exhausted), calls, i, relayed, step)
  {
    OnlyOne(calls, i, relayed, step);
    AnsweringNone(calls, i, relayed, step);
    ExtendsBy(l.history, [], calls, i, relayed, step);
    assert l.history + [] == l.history;
    assert Reached(calls, i, relayed, step, i);
  }

  lemma Confirming(l: Loop, calls: seq<RawCall>, i: nat, relayed: bool, step: Step)
    requires i < |calls| && Executes(calls, relayed, i) && step.stop != AtCall(i) && RunAt(step, i).confirm != ""
    ensures BatchIs(l, Answer(l, calls[i], RunAt(step, i)), calls, i, relayed, step)
  {
    var e := RunAt(step, i);
    var m := Tool(calls[i].id, Text(ToolText(e)));
    OnlyOne(calls, i, relayed, step);
    AnsweringLast(m, calls, i, relayed, step);
    ExtendsBy(l.history, [m], calls, i, relayed, step);
    assert Reached(calls, i, relayed, step, i) && IsAnswered(calls, i, relayed, step, i);
  }

  lemma OneMore(l: Loop, f: Loop, calls: seq<RawCall>, i: nat, relayed: bool, step: Step)
    requires i < |calls| && Executes(calls, relayed, i) && step.stop != AtCall(i) && RunAt(step, i).confirm == ""
    requires BatchIs(Answer(l, calls[i], RunAt(step, i)), f, calls, i + 1, relayed, step)
    ensures BatchIs(l, f, calls, i, relayed, step)
  {
    var e := RunAt(step, i);
    var m := Tool(calls[i].id, Text(ToolText(e)));
    var msgs :| f.history == l.history + [m] + msgs && Answering(msgs, calls, i + 1, relayed, step);
    AnsweringMore(m, msgs, calls, i, relayed, step);
    Assoc(l.history, [m], msgs);
    EndingLater(calls, i, relayed, step, f.outcome);
    SucceedsLater(calls, i, relayed, step);
  }

  lemma {:induction false} ExecuteSays(l: Loop, calls: seq<RawCall>, i: nat, relayed: bool, step: Step)
    requires i <= |calls| && l.outcome.Running?
    ensures BatchIs(l, Execute(l, calls, i, relayed, step), calls, i, relayed, step)
    decreases |calls| - i
  {
    if i == |calls| {
      NoneLeft(l, calls, relayed, step);
    } else if relayed && calls[i].name == NATIVE_ONLY {
      ExecuteSays(l, calls, i + 1, relayed, step);
      SkippedOne(l, Execute(l, calls, i + 1, relayed, step), calls, i, relayed, step);
    } else if step.stop == AtCall(i) {
      CutOff(l, calls[i].id, calls, i, relayed, step);
    } else if RunAt(step, i).confirm != "" {
      Confirming(l, calls, i, relayed, step);
    } else {
      var after := Answer(l, calls[i], RunAt(step, i));
      ExecuteSays(after, calls, i + 1, relayed, step);
      OneMore(l, Execute(after, calls, i + 1, relayed, step), calls, i, relayed, step);
    }
  }

  // ---- one step ----------------------------------------------------------

  /** The calls a step executes: its own, or the relay's after the shown text. */
  predicate Native(step: Step) {
    !step.stop.AtModel? && !step.stop.ModelRaises? && step.decision.calls != []
  }

  predicate Relayed(step: Step) {
    !step.stop.AtModel? && !step.stop.ModelRaises? && TakesRelay(step) && !step.stop.AtRelay?
  }

  /** What a step adds to the conversation: the reply's messages, or the shown text with
      the relay's calls, and then the answers; or nothing. */
  ghost predicate Adds(before: seq<Msg>, after: seq<Msg>, step: Step) {
    && (Native(step) ==> Extends(before + step.decision.items, after, step.decision.calls, 0, false, step))
    && (Relayed(step) ==> Extends(before + [Assistant(Text(step.display), step.relay)], after, step.relay, 0, true, step))
    && (!Native(step) && !Relayed(step) ==> after == before)
  }

  /** How a step ends: what it reports, or Running when the loop goes on. */
  ghost predicate Reports(step: Step, outcome: Outcome) {
    && (step.stop.AtModel? ==> outcome == Exhausted)
    && (step.stop.ModelRaises? ==> outcome == Raised)
    && (Native(step) ==> Ending(step.decision.calls, 0, false, step, outcome))
    && (Relayed(step) ==> Ending(step.relay, 0, true, step, outcome))
    && (!step.stop.AtModel? && !step.stop.ModelRaises? && step.decision.calls == [] ==>
          && (step.blank ==> outcome == Empty)
          && (!step.blank && step.intent == "" ==> outcome == Natural(step.decision.content))
          && (!step.blank && step.intent != "" && step.stop.AtRelay? ==> outcome == Exhausted)
          && (!step.blank && step.intent != "" && !step.stop.AtRelay? && step.relay == [] ==> outcome == Natural(step.display)))
  }

  predicate Executing(step: Step) {
    Native(step) || Relayed(step)
  }

  ghost predicate StepSucceeds(step: Step) {
    (Native(step) && SomeSucceeds(step.decision.calls, 0, false, step)) || (Relayed(step) && SomeSucceeds(step.relay, 0, true, step))
  }

  ghost predicate StepIs(l: Loop, f: Loop, step: Step) {
    Adds(l.history, f.history, step) && Reports(step, f.outcome) && (f.success <==> l.success || StepSucceeds(step)) && (f.used <==> l.used || Executing(step))
  }

  lemma AdvanceSays(l: Loop, step: Step)
    requires l.outcome.Running?
    ensures StepIs(l, Advance(l, step), step)
  {
    var m := l.(requests := l.requests + [l.history]);
    if Native(step) {
      ExecuteSays(m.(history := m.history + step.decision.items, used := true), step.decision.calls, 0, false, step);
    } else if Relayed(step) {
      ExecuteSays(m.(history := m.history + [Assistant(Text(step.display), step.relay)], used := true), step.relay, 0, true, step);
    }
  }

  // ---- whole runs --------------------------------------------------------

  /** The conversation after the k-th request. */
  function Later(f: Loop, k: nat): seq<Msg> {
    if k + 1 < |f.requests| then f.requests[k + 1] else f.history
  }

  ghost predicate AddsAt(f: Loop, step: Step, k: nat)
    requires k < |f.requests|
  {
    Adds(f.requests[k], Later(f, k), step)
  }

  /** Each step made adds to the conversation, and all but the last let the loop go on. */
  ghost predicate Chained(f: Loop, history: seq<Msg>, steps: seq<Step>) {
    && |f.requests| <= |steps|
    && (if f.requests == [] then f.history == history else f.requests[0] == history)
    && (forall k: nat :: k < |f.requests| ==> AddsAt(f, steps[k], k))
    && (forall k: nat :: k + 1 < |f.requests| ==> Reports(steps[k], Running))
  }

  /** The two notes a run keeps: that some tool was used, that some tool succeeded. */
  ghost predicate Noted(f: Loop, steps: seq<Step>) {
    && |f.requests| <= |steps|
    && (f.success <==> exists k: nat :: k < |f.requests| && StepSucceeds(steps[k]))
    && (f.used <==> exists k: nat :: k < |f.requests| && Executing(steps[k]))
  }

  ghost predicate Chronicle(f: Loop, history: seq<Msg>, steps: seq<Step>) {
    Chained(f, history, steps) && Noted(f, steps)
  }

  ghost predicate EndsAs(f: Loop, steps: seq<Step>) {
    && |f.requests| <= |steps|
    && (f.requests == [] ==> f.outcome == Running)
    && (f.requests != [] ==> Reports(steps[|f.requests| - 1], f.outcome))
    && (f.outcome.Running? ==> |f.requests| == |steps|)
  }

  lemma SuccessGrows(n: nat, before: bool, after: bool, front: seq<Step>, step: Step)
    requires n == |front| && (before <==> exists k: nat :: k < n && StepSucceeds(front[k]))
    requires after <==> before || StepSucceeds(step)
    ensures after <==> exists k: nat :: k < n + 1 && StepSucceeds((front + [step])[k])
  {
    var steps := front + [step];
    if before {
      var k: nat :| k < n && StepSucceeds(front[k]);
      assert StepSucceeds(steps[k]);
    }
    assert steps[n] == step;
    if k: nat :| k < n + 1 && StepSucceeds(steps[k]) {
      assert k < n ==> StepSucceeds(front[k]);
    }
  }

  lemma UseGrows(n: nat, before: bool, after: bool, front: seq<Step>, step: Step)
    requires n == |front| && (before <==> exists k: nat :: k < n && Executing(front[k]))
    requires after <==> before || Executing(step)
    ensures after <==> exists k: nat :: k < n + 1 && Executing((front + [step])[k])
  {
    var steps := front + [step];
    if before {
      var k: nat :| k < n && Executing(front[k]);
      assert Executing(steps[k]);
    }
    assert steps[n] == step;
    if k: nat :| k < n + 1 && Executing(steps[k]) {
      assert k < n ==> Executing(front[k]);
    }
  }

  lemma AddsStill(f: Loop, g: Loop, step: Step, k: nat)
    requires k < |f.requests| && g.requests == f.requests + [f.history] && AddsAt(f, step, k)
    ensures AddsAt(g, step, k)
  {
    assert Later(f, k) == Later(g, k);
  }

  lemma ChainGrows(f: Loop, g: Loop, history: seq<Msg>, front: seq<Step>, step: Step)
    requires Chained(f, history, front) && |f.requests| == |front| && (front != [] ==> Reports(front[|front| - 1], Running))
    requires g.requests == f.requests + [f.history] && Adds(f.history, g.history, step)
    ensures Chained(g, history, front + [step])
  {
    var steps, n := front + [step], |front|;
    forall k: nat | k < n + 1 ensures AddsAt(g, steps[k], k) {
      if k < n {
        assert AddsAt(f, front[k], k);
        AddsStill(f, g, front[k], k);
      }
    }
    forall k: nat | k < n ensures Reports(steps[k], Running) {
      assert steps[k] == front[k];
    }
  }

  lemma NotesGrow(f: Loop, g: Loop, front: seq<Step>, step: Step)
    requires Noted(f, front) && |f.requests| == |front| && |g.requests| == |front| + 1
    requires (g.success <==> f.success || StepSucceeds(step)) && (g.used <==> f.used || Executing(step))
    ensures Noted(g, front + [step])
  {
    SuccessGrows(|front|, f.success, g.success, front, step);
    UseGrows(|front|, f.used, g.used, front, step);
  }

  lemma ChronicleGrows(f: Loop, history: seq<Msg>, front: seq<Step>, step: Step)
    requires f.outcome.Running? && Chronicle(f, history, front) && EndsAs(f, front)
    ensures Chronicle(Advance(f, step), history, front + [step]) && EndsAs(Advance(f, step), front + [step])
  {
    var g := Advance(f, step);
    AdvanceSays(f, step);
    AdvanceRequests(f, step);
    ChainGrows(f, g, history, front, step);
    NotesGrow(f, g, front, step);
  }

  lemma ChronicleStays(f: Loop, history: seq<Msg>, front: seq<Step>, step: Step)
    requires !f.outcome.Running? && Chronicle(f, history, front) && EndsAs(f, front)
    ensures Chronicle(f, history, front + [step]) && EndsAs(f, front + [step])
  {
    var steps := front + [step];
    assert forall k: nat :: k < |f.requests| ==> steps[k] == front[k];
    if f.success {
      var k: nat :| k < |f.requests| && StepSucceeds(front[k]);
      assert StepSucceeds(steps[k]);
    }
    if f.used {
      var k: nat :| k < |f.requests| && Executing(front[k]);
      assert Executing(steps[k]);
    }
  }

  lemma {:induction false} AfterIs(history: seq<Msg>, steps: seq<Step>)
    ensures Chronicle(After(history, steps), history, steps) && EndsAs(After(history, steps), steps)
    decreases |steps|
  {
    if steps != [] {
      var front, step := steps[..|steps| - 1], steps[|steps| - 1];
      assert steps == front + [step];
      AfterIs(history, front);
      if After(history, front).outcome.Running? {
        ChronicleGrows(After(history, front), history, front, step);
      } else {
        ChronicleStays(After(history, front), history, front, step);
      }
    }
  }

  /** The whole conversation of a run: it begins as given; each step made adds the reply's
      messages (or the shown text with the relay's calls) and then one message for each
      call answered, in call order, with the confirmation text if one is asked, else the
      framed result, else the text that there is none; and success is noted exactly when
      some answered call says so. */
  lemma RunWrites(history: seq<Msg>, steps: seq<Step>)
    ensures Chronicle(Run(history, steps), history, steps)
  {
    AfterIs(history, steps);
    var f, g := After(history, steps), Run(history, steps);
    assert forall k: nat :: Later(g, k) == Later(f, k);
  }

  /** What a run reports is what its last step made reports; a run whose steps all went
      on has made every one of them and is exhausted. */
  lemma RunReports(history: seq<Msg>, steps: seq<Step>)
    ensures var f := Run(history, steps);
      && |f.requests| <= |steps| && !f.outcome.Running?
      && (f.requests == [] ==> steps == [] && f.outcome == Exhausted)
      && (f.requests != [] ==>
            || Reports(steps[|f.requests| - 1], f.outcome)
            || (|f.requests| == |steps| && Reports(steps[|steps| - 1], Running) && f.outcome == Exhausted))
  {
    AfterIs(history, steps);
  }
}
