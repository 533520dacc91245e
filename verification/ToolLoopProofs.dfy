/** Every question the loop sends is answered: what its requests keep, exactly when,
    and what is left open when it stops. */
module ToolLoopProofs {
  import opened SafeWrite
  import opened Protocol
  import opened Sequences
  import opened Pairing
  import opened Replies
  import opened ToolLoop

  // ---- One batch of calls ------------------------------------------------

  /** The ids left unanswered when the calls are executed from index i on. */
  function Unanswered(calls: seq<RawCall>, i: nat, step: Step): seq<string>
    requires i <= |calls|
    decreases |calls| - i
  {
    if i == |calls| then []
    else if step.stop == AtCall(i) then Ids(calls[i..])
    else if RunAt(step, i).confirm != "" then Ids(calls[i + 1..])
    else Unanswered(calls, i + 1, step)
  }

  predicate Undisturbed(step: Step, i: nat, j: nat) {
    forall k :: i <= k < j ==> step.stop != AtCall(k) && RunAt(step, k).confirm == ""
  }

  /** A timeout in call j leaves exactly the calls from j on; a confirmation asked by
      call j leaves those after it; otherwise none is left. */
  lemma {:induction false} UnansweredIs(calls: seq<RawCall>, i: nat, j: nat, step: Step)
    requires i <= j <= |calls| && Undisturbed(step, i, j)
    ensures j == |calls| ==> Unanswered(calls, i, step) == []
    ensures j < |calls| && step.stop == AtCall(j) ==> Unanswered(calls, i, step) == Ids(calls[j..])
    ensures j < |calls| && step.stop != AtCall(j) && RunAt(step, j).confirm != "" ==> Unanswered(calls, i, step) == Ids(calls[j + 1..])
    decreases j - i
  {
    if i < j { UnansweredIs(calls, i + 1, j, step); }
  }

  lemma AnswerNoted(l: Loop, c: RawCall, e: Execution)
    ensures Pair(Clear, Events(Answer(l, c, e).history)) == Note(Pair(Clear, Events(l.history)), Answered(c.id, ToolText(e)))
    ensures Questions(Events(Answer(l, c, e).history)) == Questions(Events(l.history))
    ensures Answers(Events(Answer(l, c, e).history)) == Answers(Events(l.history)) + [c.id]
  {
    EventsSnoc(l.history, Tool(c.id, Text(ToolText(e))));
    PairSnoc(Clear, Events(l.history), Answered(c.id, ToolText(e)));
    AnswerReads(Events(l.history), c.id, ToolText(e));
  }

  lemma IdsFrom(calls: seq<RawCall>, i: nat)
    requires i < |calls|
    ensures Ids(calls[i..]) == [calls[i].id] + Ids(calls[i + 1..])
  {
  }

  lemma NotedHead(id: string, rest: seq<string>, answering: bool, text: string)
    ensures Note(Open([id] + rest, answering), Answered(id, text)) == Open(rest, rest != [])
  {
    assert ([id] + rest)[1..] == rest;
  }

  /** The first of the remaining ids is the one answered next. */
  lemma AnswerPops(l: Loop, calls: seq<RawCall>, i: nat, e: Execution)
    requires i < |calls| && Pair(Clear, Events(l.history)) == Open(Ids(calls[i..]), i > 0)
    ensures Pair(Clear, Events(Answer(l, calls[i], e).history)) == Open(Ids(calls[i + 1..]), i + 1 < |calls|)
  {
    AnswerNoted(l, calls[i], e);
    IdsFrom(calls, i);
    NotedHead(calls[i].id, Ids(calls[i + 1..]), i > 0, ToolText(e));
  }

  /** What a batch leaves: exactly the unanswered ids, none if it went through. */
  ghost predicate LeavesOpen(f: Loop, left: seq<string>) {
    var ledger := Pair(Clear, Events(f.history));
    ledger.Open? && ledger.pending == left && (f.outcome.Running? ==> ledger == Clear)
  }

  lemma ExecuteOne(l: Loop, calls: seq<RawCall>, i: nat, relayed: bool, step: Step)
    requires i < |calls| && !(relayed && calls[i].name == NATIVE_ONLY) && step.stop != AtCall(i)
    ensures var after := Answer(l, calls[i], RunAt(step, i));
      Execute(l, calls, i, relayed, step) == if after.outcome.Running? then Execute(after, calls, i + 1, relayed, step) else after
  {
  }

  lemma UnansweredOne(l: Loop, calls: seq<RawCall>, i: nat, step: Step)
    requires i < |calls| && step.stop != AtCall(i)
    ensures Unanswered(calls, i, step)
         == if Answer(l, calls[i], RunAt(step, i)).outcome.Running? then Unanswered(calls, i + 1, step) else Ids(calls[i + 1..])
  {
  }

  lemma {:induction false} ExecuteAnswers(l: Loop, calls: seq<RawCall>, i: nat, step: Step)
    requires i <= |calls| && l.outcome.Running?
    requires Pair(Clear, Events(l.history)) == Open(Ids(calls[i..]), 0 < i < |calls|)
    ensures LeavesOpen(Execute(l, calls, i, false, step), Unanswered(calls, i, step))
    decreases |calls| - i
  {
    if i == |calls| {
      assert Ids(calls[i..]) == [];
    } else if step.stop != AtCall(i) {
      var after := Answer(l, calls[i], RunAt(step, i));
      ExecuteOne(l, calls, i, false, step);
      UnansweredOne(l, calls, i, step);
      AnswerPops(l, calls, i, RunAt(step, i));
      if after.outcome.Running? { ExecuteAnswers(after, calls, i + 1, step); }
    }
  }

  predicate Skipped(calls: seq<RawCall>, i: nat) {
    exists k :: i <= k < |calls| && calls[k].name == NATIVE_ONLY
  }

  lemma {:induction false} ExecuteWithoutSkips(l: Loop, calls: seq<RawCall>, i: nat, step: Step)
    requires i <= |calls| && !Skipped(calls, i)
    ensures Execute(l, calls, i, true, step) == Execute(l, calls, i, false, step)
    decreases |calls| - i
  {
    if i < |calls| {
      assert !Skipped(calls, i + 1);
      if step.stop != AtCall(i) {
        ExecuteWithoutSkips(Answer(l, calls[i], RunAt(step, i)), calls, i + 1, step);
      }
    }
  }

  /** Executions only add answers, one for each tool started and not cut off. */
  ghost predicate Counted(l: Loop, f: Loop, earlier: seq<string>) {
    && Questions(Events(f.history)) == Questions(Events(l.history))
    && Accounted(f, earlier)
  }

  /** The answers are the tools started, in order, but for one a timeout cut off. */
  ghost predicate Accounted(f: Loop, earlier: seq<string>) {
    || Answers(Events(f.history)) == earlier + f.started
    || (f.outcome.Exhausted? && f.started != [] && Answers(Events(f.history)) == earlier + f.started[..|f.started| - 1])
  }

  lemma AnswerCounts(l: Loop, c: RawCall, e: Execution, earlier: seq<string>)
    requires Answers(Events(l.history)) == earlier + l.started
    ensures var after := Answer(l, c, e);
      Questions(Events(after.history)) == Questions(Events(l.history)) && Answers(Events(after.history)) == earlier + after.started
  {
    AnswerNoted(l, c, e);
    Assoc(earlier, l.started, [c.id]);
  }

  lemma CutOffCounts(l: Loop, id: string, earlier: seq<string>)
    requires Answers(Events(l.history)) == earlier + l.started
    ensures Counted(l, l.(started := l.started + [id], outcome := Exhausted), earlier)
  {
    assert (l.started + [id])[..|l.started|] == l.started;
  }

  lemma {:induction false} ExecuteCounts(l: Loop, calls: seq<RawCall>, i: nat, relayed: bool, step: Step, earlier: seq<string>)
    requires i <= |calls|
    requires Answers(Events(l.history)) == earlier + l.started
    ensures Counted(l, Execute(l, calls, i, relayed, step), earlier)
    decreases |calls| - i
  {
    if i == |calls| {
    } else if relayed && calls[i].name == NATIVE_ONLY {
      ExecuteCounts(l, calls, i + 1, relayed, step, earlier);
    } else if step.stop == AtCall(i) {
      CutOffCounts(l, calls[i].id, earlier);
    } else {
      var after := Answer(l, calls[i], RunAt(step, i));
      ExecuteOne(l, calls, i, relayed, step);
      AnswerCounts(l, calls[i], RunAt(step, i), earlier);
      if after.outcome.Running? { ExecuteCounts(after, calls, i + 1, relayed, step, earlier); }
    }
  }

  lemma {:induction false} ExecuteStarts(l: Loop, calls: seq<RawCall>, i: nat, relayed: bool, step: Step)
    requires i <= |calls|
    ensures var f := Execute(l, calls, i, relayed, step);
      f.outcome.Running? ==> |f.started| + (if relayed && Skipped(calls, i) then 1 else 0) <= |l.started| + |calls| - i
    decreases |calls| - i
  {
    if i == |calls| {
    } else if relayed && calls[i].name == NATIVE_ONLY {
      ExecuteStarts(l, calls, i + 1, relayed, step);
    } else if step.stop != AtCall(i) {
      assert relayed && Skipped(calls, i) ==> Skipped(calls, i + 1);
      ExecuteStarts(Answer(l, calls[i], RunAt(step, i)), calls, i + 1, relayed, step);
    }
  }

  // ---- One step ----------------------------------------------------------

  /** A relay step that answers one of its own questions with nothing. */
  predicate Skips(step: Step) {
    TakesRelay(step) && Skipped(step.relay, 0)
  }

  /** The ids a step leaves open. */
  function Left(step: Step): seq<string> {
    if step.stop.AtModel? || step.stop.ModelRaises? then []
    else if step.decision.calls != [] then Unanswered(step.decision.calls, 0, step)
    else if TakesRelay(step) && !step.stop.AtRelay? then Unanswered(step.relay, 0, step)
    else []
  }

  lemma AsksOpen(history: seq<Msg>, items: seq<Msg>, calls: seq<RawCall>)
    requires Balanced(Events(history)) && OnlyAsks(Events(items)) && Questions(Events(items)) == calls
    ensures Pair(Clear, Events(history + items)) == Open(Ids(calls), false)
    ensures Questions(Events(history + items)) == Questions(Events(history)) + calls
    ensures Answers(Events(history + items)) == Answers(Events(history))
  {
    EventsAppend(history, items);
    PairAppend(Clear, Events(history), Events(items));
    PairAsks([], Events(items));
    assert [] + Ids(calls) == Ids(calls);
    ReadingAppend(Events(history), Events(items));
    NoAnswersInAsks(Events(items));
    assert Answers(Events(history)) + [] == Answers(Events(history));
  }

  lemma RelayAsks(display: string, relay: seq<RawCall>)
    ensures OnlyAsks(Events([Assistant(Text(display), relay)])) && Questions(Events([Assistant(Text(display), relay)])) == relay
  {
    ChatMessageReads(Some(display), relay);
  }

  /** A batch executed from a balanced history. */
  lemma BatchBalance(l: Loop, items: seq<Msg>, calls: seq<RawCall>, relayed: bool, step: Step)
    requires l.outcome.Running? && Balanced(Events(l.history))
    requires OnlyAsks(Events(items)) && Questions(Events(items)) == calls
    ensures var f := Execute(l.(history := l.history + items, used := true), calls, 0, relayed, step);
      var ledger := Pair(Clear, Events(f.history));
      && (!(relayed && Skipped(calls, 0)) ==> ledger.Open? && ledger.pending == Unanswered(calls, 0, step))
      && (f.outcome.Running? ==> (ledger == Clear <==> !(relayed && Skipped(calls, 0))))
  {
    var m := l.(history := l.history + items, used := true);
    AsksOpen(l.history, items, calls);
    assert calls[0..] == calls;
    if !(relayed && Skipped(calls, 0)) {
      ExecuteAnswers(m, calls, 0, step);
      if relayed { ExecuteWithoutSkips(m, calls, 0, step); }
    } else {
      // Counted from here on: as many answers as tools started, fewer than questions.
      var earlier := Answers(Events(m.history));
      var n := m.(started := []);
      StartedOffset(m, calls, 0, relayed, step);
      ExecuteCounts(n, calls, 0, relayed, step, earlier);
      ExecuteStarts(n, calls, 0, relayed, step);
      var f := Execute(m, calls, 0, relayed, step);
      PairsUp(Events(l.history));
      if Pair(Clear, Events(f.history)) == Clear {
        PairsUp(Events(f.history));
      }
    }
  }

  /** What was started before has no influence on what follows. */
  lemma {:induction false} StartedOffset(l: Loop, calls: seq<RawCall>, i: nat, relayed: bool, step: Step)
    requires i <= |calls|
    ensures Execute(l, calls, i, relayed, step).history == Execute(l.(started := []), calls, i, relayed, step).history
    ensures Execute(l, calls, i, relayed, step).outcome == Execute(l.(started := []), calls, i, relayed, step).outcome
    decreases |calls| - i
  {
    if i < |calls| {
      if relayed && calls[i].name == NATIVE_ONLY {
        StartedOffset(l, calls, i + 1, relayed, step);
      } else if step.stop != AtCall(i) {
        var a, b := Answer(l, calls[i], RunAt(step, i)), Answer(l.(started := []), calls[i], RunAt(step, i));
        StartedOffset(a, calls, i + 1, relayed, step);
        StartedOffset(b, calls, i + 1, relayed, step);
        assert a.(started := []) == b.(started := []);
      }
    }
  }

  ghost predicate StepKeeps(f: Loop, step: Step) {
    var ledger := Pair(Clear, Events(f.history));
    && (!Skips(step) ==> ledger.Open? && ledger.pending == Left(step))
    && (f.outcome.Running? ==> (ledger == Clear <==> !Skips(step)))
  }

  lemma StepBalance(l: Loop, step: Step)
    requires l.outcome.Running? && Balanced(Events(l.history)) && Faithful(step.decision)
    ensures StepKeeps(Advance(l, step), step)
  {
    var m := l.(requests := l.requests + [l.history]);
    if step.stop.AtModel? || step.stop.ModelRaises? {
      assert Advance(l, step).history == l.history;
    } else if step.decision.calls != [] {
      BatchBalance(m, step.decision.items, step.decision.calls, false, step);
    } else if TakesRelay(step) && !step.stop.AtRelay? {
      RelayAsks(step.display, step.relay);
      BatchBalance(m, [Assistant(Text(step.display), step.relay)], step.relay, true, step);
    } else {
      assert Advance(l, step).history == l.history;
    }
  }

  // ---- Whole runs --------------------------------------------------------

  ghost predicate AllBalanced(requests: seq<seq<Msg>>) {
    forall k :: 0 <= k < |requests| ==> Balanced(Events(requests[k]))
  }

  predicate NoSkips(steps: seq<Step>, n: int)
    requires n <= |steps|
  {
    forall k :: 0 <= k < n ==> !Skips(steps[k])
  }

  ghost predicate AllFaithful(steps: seq<Step>) {
    forall k :: 0 <= k < |steps| ==> Faithful(steps[k].decision)
  }

  lemma {:induction false} ExecuteFrame(l: Loop, calls: seq<RawCall>, i: nat, relayed: bool, step: Step)
    requires i <= |calls|
    ensures var f := Execute(l, calls, i, relayed, step); f.requests == l.requests && f.used == l.used
    decreases |calls| - i
  {
    if i == |calls| {
    } else if relayed && calls[i].name == NATIVE_ONLY {
      ExecuteFrame(l, calls, i + 1, relayed, step);
    } else if step.stop != AtCall(i) {
      ExecuteFrame(Answer(l, calls[i], RunAt(step, i)), calls, i + 1, relayed, step);
    }
  }

  /** Every step sends the history as it stands, once. */
  lemma AdvanceRequests(l: Loop, step: Step)
    ensures Advance(l, step).requests == l.requests + [l.history]
  {
    var m := l.(requests := l.requests + [l.history]);
    ExecuteFrame(m.(history := m.history + step.decision.items, used := true), step.decision.calls, 0, false, step);
    ExecuteFrame(m.(history := m.history + [Assistant(Text(step.display), step.relay)], used := true), step.relay, 0, true, step);
  }

  /** The ids the last step made leaves open. */
  function LastLeft(f: Loop, steps: seq<Step>): seq<string> {
    if f.requests == [] || |f.requests| > |steps| then [] else Left(steps[|f.requests| - 1])
  }

  /** What is still unanswered is what the last step made leaves open. */
  ghost predicate StaysOpen(f: Loop, steps: seq<Step>) {
    var ledger := Pair(Clear, Events(f.history));
    ledger.Open? && ledger.pending == LastLeft(f, steps)
  }

  ghost predicate RunKeeps(f: Loop, steps: seq<Step>) {
    && |f.requests| <= |steps|
    && (AllBalanced(f.requests) <==> NoSkips(steps, |f.requests| - 1))
    && (f.outcome.Running? ==> |f.requests| == |steps|)
    && (f.outcome.Running? ==> (AllBalanced(f.requests) && Balanced(Events(f.history)) <==> NoSkips(steps, |steps|)))
    && (NoSkips(steps, |f.requests|) ==> StaysOpen(f, steps))
  }

  lemma NoSkipsFront(front: seq<Step>, last: Step, n: int)
    requires n <= |front|
    ensures NoSkips(front + [last], n) <==> NoSkips(front, n)
    ensures NoSkips(front + [last], |front| + 1) <==> NoSkips(front, |front|) && !Skips(last)
  {
    var steps := front + [last];
    assert forall k :: 0 <= k < |front| ==> steps[k] == front[k];
    assert steps[|front|] == last;
    if NoSkips(steps, n) {
      forall k | 0 <= k < n ensures !Skips(front[k]) { assert steps[k] == front[k]; }
    }
    if NoSkips(steps, |front| + 1) {
      forall k | 0 <= k < |front| ensures !Skips(front[k]) { assert steps[k] == front[k]; }
    }
  }

  lemma BalancedSnoc(requests: seq<seq<Msg>>, history: seq<Msg>)
    ensures AllBalanced(requests + [history]) <==> AllBalanced(requests) && Balanced(Events(history))
  {
    var more := requests + [history];
    if AllBalanced(more) {
      assert more[|requests|] == history;
      forall k | 0 <= k < |requests| ensures Balanced(Events(requests[k])) { assert more[k] == requests[k]; }
    }
  }

  lemma AdvanceKeeps(f: Loop, front: seq<Step>, step: Step)
    requires f.outcome.Running? && RunKeeps(f, front) && Faithful(step.decision)
    ensures RunKeeps(Advance(f, step), front + [step])
  {
    var g, steps := Advance(f, step), front + [step];
    AdvanceRequests(f, step);
    BalancedSnoc(f.requests, f.history);
    NoSkipsFront(front, step, |front|);
    assert AllBalanced(g.requests) <==> NoSkips(steps, |front|);
    assert steps[|g.requests| - 1] == step;
    if Balanced(Events(f.history)) {
      StepBalance(f, step);
    }
  }

  lemma StoppedKeeps(f: Loop, front: seq<Step>, step: Step)
    requires !f.outcome.Running? && RunKeeps(f, front)
    ensures RunKeeps(f, front + [step])
  {
    NoSkipsFront(front, step, |f.requests| - 1);
    NoSkipsFront(front, step, |f.requests|);
  }

  lemma {:induction false} RunKeepsPairing(history: seq<Msg>, steps: seq<Step>)
    requires Balanced(Events(history)) && AllFaithful(steps)
    ensures RunKeeps(After(history, steps), steps)
    decreases |steps|
  {
    if steps != [] {
      var front, step := steps[..|steps| - 1], steps[|steps| - 1];
      assert steps == front + [step];
      RunKeepsPairing(history, front);
      if After(history, front).outcome.Running? {
        AdvanceKeeps(After(history, front), front, step);
      } else {
        StoppedKeeps(After(history, front), front, step);
      }
    }
  }

  // ---- Main results ------------------------------------------------------

  /** At most max_steps requests are made, and every one of them holds a history in
      which each question is answered once, in call order, before anything else -- if
      and only if no relay step before the last request skipped one of its calls. */
  lemma RequestsArePaired(history: seq<Msg>, steps: seq<Step>)
    requires Balanced(Events(history)) && AllFaithful(steps)
    ensures var requests := Run(history, steps).requests;
      |requests| <= |steps| && (AllBalanced(requests) <==> NoSkips(steps, |requests| - 1))
  {
    RunKeepsPairing(history, steps);
  }

  /** With native calls only, timeouts and confirmations included, the ids asked in
      every request are exactly the ids answered, in order. */
  lemma NativeRequestsArePaired(history: seq<Msg>, steps: seq<Step>, k: nat)
    requires Balanced(Events(history)) && AllFaithful(steps)
    requires forall i :: 0 <= i < |steps| ==> !TakesRelay(steps[i])
    requires k < |Run(history, steps).requests|
    ensures var evs := Events(Run(history, steps).requests[k]);
      Balanced(evs) && Ids(Questions(evs)) == Answers(evs)
  {
    RequestsArePaired(history, steps);
    var requests := Run(history, steps).requests;
    assert NoSkips(steps, |requests| - 1);
    PairsUp(Events(requests[k]));
    assert Answers(Events(requests[k])) + [] == Answers(Events(requests[k]));
  }

  lemma OpenMeansUnanswered(evs: seq<Event>, left: seq<string>)
    requires Pair(Clear, evs).Open? && Pair(Clear, evs).pending == left
    ensures Ids(Questions(evs)) == Answers(evs) + left && (Balanced(evs) <==> left == [])
  {
    PairsUp(evs);
    PairTidy(evs);
  }

  /** The closing generation sees unanswered questions exactly when the last step was
      cut short in its calls: those from the timed-out call on, or after the call that
      asked for confirmation. */
  lemma LeftOpenAtTheEnd(history: seq<Msg>, steps: seq<Step>)
    requires Balanced(Events(history)) && AllFaithful(steps)
    requires var n := |Run(history, steps).requests|; n <= |steps| && NoSkips(steps, n)
    ensures var f := Run(history, steps);
      && Ids(Questions(Events(f.history))) == Answers(Events(f.history)) + LastLeft(f, steps)
      && (Balanced(Events(f.history)) <==> LastLeft(f, steps) == [])
  {
    RunKeepsPairing(history, steps);
    var f := After(history, steps);
    assert StaysOpen(f, steps);
    OpenMeansUnanswered(Events(f.history), LastLeft(f, steps));
  }

  lemma AdvanceAccounts(l: Loop, step: Step, earlier: seq<string>)
    requires l.outcome.Running? && Answers(Events(l.history)) == earlier + l.started && Faithful(step.decision)
    ensures Accounted(Advance(l, step), earlier)
  {
    var m := l.(requests := l.requests + [l.history]);
    if step.stop.AtModel? || step.stop.ModelRaises? {
    } else if step.decision.calls != [] {
      BatchAccounts(m, step.decision.items, step.decision.calls, false, step, earlier);
    } else if TakesRelay(step) && !step.stop.AtRelay? {
      RelayAsks(step.display, step.relay);
      BatchAccounts(m, [Assistant(Text(step.display), step.relay)], step.relay, true, step, earlier);
    }
  }

  lemma BatchAccounts(l: Loop, items: seq<Msg>, calls: seq<RawCall>, relayed: bool, step: Step, earlier: seq<string>)
    requires Answers(Events(l.history)) == earlier + l.started && OnlyAsks(Events(items))
    ensures Accounted(Execute(l.(history := l.history + items, used := true), calls, 0, relayed, step), earlier)
  {
    EventsAppend(l.history, items);
    ReadingAppend(Events(l.history), Events(items));
    NoAnswersInAsks(Events(items));
    assert (earlier + l.started) + [] == earlier + l.started;
    ExecuteCounts(l.(history := l.history + items, used := true), calls, 0, relayed, step, earlier);
  }

  /** Every tool the loop starts is answered in its history, once and in start order;
      only a timeout can leave one, the last, without its answer. */
  lemma {:induction false} StartedMeansAnswered(history: seq<Msg>, steps: seq<Step>)
    requires AllFaithful(steps)
    ensures Accounted(Run(history, steps), Answers(Events(history)))
    ensures Accounted(After(history, steps), Answers(Events(history)))
    decreases |steps|
  {
    if steps == [] {
      assert Answers(Events(history)) + [] == Answers(Events(history));
    } else {
      var front := steps[..|steps| - 1];
      StartedMeansAnswered(history, front);
      if After(history, front).outcome.Running? {
        AdvanceAccounts(After(history, front), steps[|steps| - 1], Answers(Events(history)));
      }
    }
  }

  /** The last message answers the last tool started, with this text. */
  ghost predicate LastAnswerIs(f: Loop, text: string) {
    f.history != [] && f.started != [] && f.history[|f.history| - 1] == Tool(f.started[|f.started| - 1], Text(text))
  }

  ghost predicate ConfirmsLast(f: Loop) {
    f.outcome.Confirm? ==> f.outcome.text != "" && LastAnswerIs(f, f.outcome.text)
  }

  lemma {:induction false} ExecuteConfirms(l: Loop, calls: seq<RawCall>, i: nat, relayed: bool, step: Step)
    requires i <= |calls| && l.outcome.Running?
    ensures ConfirmsLast(Execute(l, calls, i, relayed, step))
    decreases |calls| - i
  {
    if i == |calls| {
    } else if relayed && calls[i].name == NATIVE_ONLY {
      ExecuteConfirms(l, calls, i + 1, relayed, step);
    } else if step.stop != AtCall(i) {
      ExecuteOne(l, calls, i, relayed, step);
      var after := Answer(l, calls[i], RunAt(step, i));
      if after.outcome.Running? { ExecuteConfirms(after, calls, i + 1, relayed, step); }
    }
  }

  /** A confirmation is asked by the last tool started, whose answer in the history is
      the very text the user is asked. */
  lemma {:induction false} ConfirmationIsLastAnswer(history: seq<Msg>, steps: seq<Step>)
    ensures ConfirmsLast(Run(history, steps)) && ConfirmsLast(After(history, steps))
    decreases |steps|
  {
    if steps != [] {
      var l, step := After(history, steps[..|steps| - 1]), steps[|steps| - 1];
      ConfirmationIsLastAnswer(history, steps[..|steps| - 1]);
      var m := l.(requests := l.requests + [l.history]);
      if l.outcome.Running? {
        ExecuteConfirms(m.(history := m.history + step.decision.items, used := true), step.decision.calls, 0, false, step);
        ExecuteConfirms(m.(history := m.history + [Assistant(Text(step.display), step.relay)], used := true), step.relay, 0, true, step);
      }
    }
  }

  /** A run that used no tool leaves the conversation as it was given. */
  lemma {:induction false} UnusedMeansUntouched(history: seq<Msg>, steps: seq<Step>)
    ensures var f := Run(history, steps); !f.used ==> f.history == history && f.started == [] && !f.success
    ensures var f := After(history, steps); !f.used ==> f.history == history && f.started == [] && !f.success
    decreases |steps|
  {
    if steps != [] {
      UnusedMeansUntouched(history, steps[..|steps| - 1]);
      var l, step := After(history, steps[..|steps| - 1]), steps[|steps| - 1];
      var m := l.(requests := l.requests + [l.history]);
      ExecuteFrame(m.(history := m.history + step.decision.items, used := true), step.decision.calls, 0, false, step);
      ExecuteFrame(m.(history := m.history + [Assistant(Text(step.display), step.relay)], used := true), step.relay, 0, true, step);
    }
  }

  function SkippingStep(said: string): Step {
    Step(Decision(said, [], []), false, said, "manage it", [RawCall("relay_1", NATIVE_ONLY, Json("{}"))], [], Nowhere)
  }

  function ClosingStep(said: string): Step {
    Step(Decision(said, [], []), false, said, "", [], [], Nowhere)
  }

  lemma SkippingRun(history: seq<Msg>, said: string)
    ensures var asked := history + [Assistant(Text(said), SkippingStep(said).relay)];
      Run(history, [SkippingStep(said), ClosingStep(said)]) == Loop(asked, [history, asked], [], true, false, Natural(said))
  {
    var ask, done := SkippingStep(said), ClosingStep(said);
    var m := Loop(history + [Assistant(Text(said), ask.relay)], [history], [], true, false, Running);
    assert Start(history).requests + [history] == [history];
    assert Execute(m, ask.relay, 0, true, ask) == Execute(m, ask.relay, 1, true, ask) == m;
    assert Advance(Start(history), ask) == m;
    assert [ask][..0] == [] && [ask, done][..1] == [ask];
    assert After(history, [ask]) == m;
    assert m.requests + [m.history] == [history, m.history];
  }

  /** The skip is reachable: the model marks an intent, the relay resolves it to the
      native-only tool, and the next request holds a question nobody answers. */
  lemma RelaySkipIsReachable(said: string)
    ensures var f := Run([Plain(ByUser, Text(said))], [SkippingStep(said), ClosingStep(said)]);
      f.outcome == Natural(said) && f.started == [] && |f.requests| == 2 && !Balanced(Events(f.requests[1]))
  {
    var h, relay := [Plain(ByUser, Text(said))], SkippingStep(said).relay;
    SkippingRun(h, said);
    OneSaid(said);
    RelayAsks(said, relay);
    AsksOpen(h, [Assistant(Text(said), relay)], relay);
    assert |Ids(relay)| == 1;
  }

  lemma OneSaid(said: string)
    ensures Balanced(Events([Plain(ByUser, Text(said))]))
  {
    EventsOne(Plain(ByUser, Text(said)));
    var evs := [Said(ByUser, said)];
    assert evs[..0] == [];
    assert Pair(Clear, evs) == Note(Pair(Clear, []), evs[0]);
  }
}
