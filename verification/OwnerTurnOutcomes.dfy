/** What receipts say: how each ending of an execution is recorded, that every receipt
    tells what happened, and what later submits and reads answer from it. */
module OwnerTurnOutcomes {
  import opened SafeWrite
  import opened OwnerTurns
  import opened OwnerTurnSafety

  // ---- one ending --------------------------------------------------------

  /** How an ended execution is to be recorded: status, canonical turn id, error code. */
  datatype Verdict = Verdict(status: Status, turnId: Option<string>, code: Option<string>)

  ghost predicate IsVerdict(e: Execution, first: WriteOutcome, v: Verdict) {
    match e
    case Raised(code) => v == Verdict(Failed, None, Some(code))
    case Returned(turnId) =>
      && (turnId == "" ==> v == Verdict(Failed, None, Some("RuntimeError")))
      && (turnId != "" && first.Written? ==> v == Verdict(Completed, Some(turnId), None))
      && (turnId != "" && !first.Written? ==> v == Verdict(Failed, None, Some("OSError")))
    case Cancelled => false
  }

  /** The write that decides: of the completed receipt, or of the failed one. */
  predicate Recorded(e: Execution, first: WriteOutcome, second: WriteOutcome) {
    match e
    case Raised(_) => second.Written?
    case Returned(turnId) => (turnId != "" && first.Written?) || second.Written?
    case Cancelled => false
  }

  /** The receipt of a task, as recorded at this time. */
  function Receipt(task: Task, v: Verdict, now: int): File {
    File(Row(task.key.caller, task.key.turn, task.requestHash, v.status, v.turnId, task.createdAt, now, v.code), now)
  }

  ghost predicate Leaves(s: State, t: nat, e: Execution, first: WriteOutcome, second: WriteOutcome, now: int, v: Verdict, after: State)
    requires t < |s.tasks|
  {
    var task, k := s.tasks[t], s.tasks[t].key;
    && after.tasks == s.tasks[t := task.(phase := Done)] && after.inflight == s.inflight
    && (e.Cancelled? ==> after.disk == s.disk)
    && (Recorded(e, first, second) ==> after.disk == s.disk[k := Receipt(task, v, now)])
    && (!e.Cancelled? && !Recorded(e, first, second) ==>
          after.disk == if second.LostOld? || (e.Returned? && e.turnId != "" && first.LostOld?) then s.disk - {k} else s.disk)
  }

  lemma RaisedLeaves(s: State, t: nat, code: string, first: WriteOutcome, second: WriteOutcome, now: int, v: Verdict)
    requires t < |s.tasks| && s.tasks[t].phase.Executing? && IsVerdict(Raised(code), first, v)
    ensures Leaves(s, t, Raised(code), first, second, now, v, FinishTask(s, t, Raised(code), first, second, now))
  {
  }

  lemma ReturnedLeaves(s: State, t: nat, turnId: string, first: WriteOutcome, second: WriteOutcome, now: int, v: Verdict)
    requires t < |s.tasks| && s.tasks[t].phase.Executing? && IsVerdict(Returned(turnId), first, v)
    ensures Leaves(s, t, Returned(turnId), first, second, now, v, FinishTask(s, t, Returned(turnId), first, second, now))
  {
    if turnId != "" && !first.Written? {
      var task := s.tasks[t];
      var ended := s.(tasks := s.tasks[t := task.(phase := Done)]);
      var w := WriteRow(ended, task.key, FinalRow(task, Completed, Some(turnId), None, now), first, now);
      assert w.tasks == ended.tasks && w.inflight == s.inflight;
      assert w.disk == if first.LostOld? then s.disk - {task.key} else s.disk;
      assert second.Written? ==> w.disk[task.key := Receipt(task, v, now)] == s.disk[task.key := Receipt(task, v, now)];
    }
  }

  /** The receipt an ending leaves, for each way of ending an execution.  A written one
      has the request and the creation time of the task; unwritten ones keep or lose
      what was on disk, and a cancelled execution leaves the disk alone. */
  lemma EndingLeaves(s: State, t: nat, e: Execution, first: WriteOutcome, second: WriteOutcome, now: int, v: Verdict)
    requires t < |s.tasks| && (s.tasks[t].phase.Executing? || (s.tasks[t].phase.Created? && e.Cancelled?))
    requires !e.Cancelled? ==> IsVerdict(e, first, v)
    ensures Leaves(s, t, e, first, second, now, v, FinishTask(s, t, e, first, second, now))
  {
    match e
    case Raised(code) => RaisedLeaves(s, t, code, first, second, now, v);
    case Returned(turnId) => ReturnedLeaves(s, t, turnId, first, second, now, v);
    case Cancelled =>
  }

  // ---- every receipt tells what happened ---------------------------------

  /** A finish whose execution was recorded as this row. */
  ghost predicate EndedAs(s: State, op: Op, k: Key, row: Row) {
    && op.OpFinish? && op.t < |s.tasks| && s.tasks[op.t].phase.Executing? && s.tasks[op.t].key == k
    && Recorded(op.e, op.first, op.second) && IsVerdict(op.e, op.first, Verdict(row.status, row.canonicalTurnId, row.errorCode))
    && row.requestHash == s.tasks[op.t].requestHash && row.createdAt == s.tasks[op.t].createdAt && row.updatedAt == op.now
  }

  /** A submit that was accepted under this row. */
  ghost predicate AcceptedAs(s: State, op: Op, k: Key, row: Row) {
    && op.OpSubmit? && op.key == k && op.hash == row.requestHash && op.env.now == row.createdAt
    && Submit(s, k, op.hash, op.messageOk, op.resultRetained, op.listings, op.pruneEnv, op.env).1.Accepted?
  }

  /** What a row says, if `ops` is what happened. */
  ghost predicate Told(ops: seq<Op>, k: Key, row: Row) {
    match row.status
    case Running =>
      && row.canonicalTurnId.None? && row.errorCode.None?
      && exists i :: 0 <= i < |ops| && AcceptedAs(Run(ops[..i]), ops[i], k, row)
    case InterruptedUnknown =>
      && row.canonicalTurnId.None? && row.errorCode == Some("execution_outcome_unknown")
      && exists i :: 0 <= i < |ops| && AcceptedAs(Run(ops[..i]), ops[i], k, row)
    case _ => exists i :: 0 <= i < |ops| && EndedAs(Run(ops[..i]), ops[i], k, row)
  }

  ghost predicate RunningAs(s: State, op: Op, k: Key, row: Row) {
    row.status.Running? && row.canonicalTurnId.None? && row.errorCode.None? && AcceptedAs(s, op, k, row)
  }

  /** Where the receipt at `k` comes from in one step. */
  ghost predicate Explained(s: State, op: Op, k: Key) {
    var after := Step(s, op);
    k in after.disk ==>
      || (k in s.disk && Followed(s.disk[k].row, after.disk[k].row))
      || RunningAs(s, op, k, after.disk[k].row)
      || EndedAs(s, op, k, after.disk[k].row)
  }

  lemma BeginExplained(s: State, op: Op, k: Key)
    requires op.OpSubmit? && IsClientTurnId(op.key.turn) && op.messageOk
    requires ReadRow(Prune(s, op.listings, true, op.pruneEnv).disk, op.env, op.key).None?
    ensures Explained(s, op, k)
  {
    PruneSweeps(s, op.listings, true, op.pruneEnv, k);
  }

  lemma SubmitExplained(s: State, op: Op, k: Key)
    requires op.OpSubmit? && Inv(s)
    ensures Explained(s, op, k)
  {
    if IsClientTurnId(op.key.turn) && op.messageOk {
      var p := Prune(s, op.listings, true, op.pruneEnv);
      var row := ReadRow(p.disk, op.env, op.key);
      assert Accounted(s, op.key);
      PruneSweeps(s, op.listings, true, op.pruneEnv, k);
      PruneSweeps(s, op.listings, true, op.pruneEnv, op.key);
      if row.Some? {
        AnswerKeeps(p, op.key, op.hash, row.value, op.resultRetained, op.env, k);
        SweepTrans(s, p, Step(s, op), k, true);
      } else {
        BeginExplained(s, op, k);
      }
    }
  }

  lemma FinishExplained(s: State, op: Op, k: Key)
    requires op.OpFinish?
    ensures Explained(s, op, k)
  {
    if op.t < |s.tasks| && s.tasks[op.t].phase.Executing? && !op.e.Cancelled? {
      var v := match op.e
        case Raised(code) => Verdict(Failed, None, Some(code))
        case Returned(turnId) =>
          if turnId == "" then Verdict(Failed, None, Some("RuntimeError"))
          else if op.first.Written? then Verdict(Completed, Some(turnId), None)
          else Verdict(Failed, None, Some("OSError"))
        case Cancelled => Verdict(Failed, None, None);
      EndingLeaves(s, op.t, op.e, op.first, op.second, op.now, v);
    }
  }

  lemma StepExplained(s: State, op: Op, k: Key)
    requires Inv(s)
    ensures Explained(s, op, k)
  {
    match op
    case OpSubmit(_, _, _, _, _, _, _) => SubmitExplained(s, op, k);
    case OpStart(_) =>
    case OpFinish(_, _, _, _, _) => FinishExplained(s, op, k);
    case OpDrop(_) =>
    case OpCrash =>
    case OpRead(j, e) =>
      assert Accounted(s, j);
      RecoverSweeps(s, j, IsLive(s.inflight, s.tasks, j), e, true, k);
    case OpList(l, p, e) => ListSweeps(s, l, p, e, k);
    case OpPrune(l, p, e) => PruneSweeps(s, l, p, e, k);
  }

  lemma ToldStays(front: seq<Op>, op: Op, k: Key, row: Row, row': Row)
    requires Told(front, k, row) && Followed(row, row')
    ensures Told(front + [op], k, row')
  {
    var ops := front + [op];
    if row.status.Running? || row.status.InterruptedUnknown? {
      var i :| 0 <= i < |front| && AcceptedAs(Run(front[..i]), front[i], k, row);
      assert ops[..i] == front[..i] && ops[i] == front[i];
      assert AcceptedAs(Run(ops[..i]), ops[i], k, row');
    } else {
      var i :| 0 <= i < |front| && EndedAs(Run(front[..i]), front[i], k, row);
      assert ops[..i] == front[..i] && ops[i] == front[i];
      assert EndedAs(Run(ops[..i]), ops[i], k, row');
    }
  }

  lemma ToldAtEnd(front: seq<Op>, op: Op, k: Key, row: Row)
    requires RunningAs(Run(front), op, k, row) || EndedAs(Run(front), op, k, row)
    ensures Told(front + [op], k, row)
  {
    var ops, n := front + [op], |front|;
    assert ops[..n] == front && ops[n] == op;
    if RunningAs(Run(front), op, k, row) {
      assert AcceptedAs(Run(ops[..n]), ops[n], k, row);
    } else {
      assert EndedAs(Run(ops[..n]), ops[n], k, row);
    }
  }

  /** In every run each receipt on disk tells what happened: it is completed with a turn
      id, or failed with a code, only if an execution of that request under that key
      ended so; otherwise such a request was accepted and is running, or its outcome is
      reported unknown. */
  lemma {:induction false} ReceiptsTellWhatHappened(ops: seq<Op>, k: Key)
    requires k in Run(ops).disk
    ensures Told(ops, k, Run(ops).disk[k].row)
    decreases |ops|
  {
    if ops != [] {
      var front, op := ops[..|ops| - 1], ops[|ops| - 1];
      assert ops == front + [op];
      var s := Run(front);
      var row := Run(ops).disk[k].row;
      RunInv(front);
      StepExplained(s, op, k);
      if RunningAs(s, op, k, row) || EndedAs(s, op, k, row) {
        ToldAtEnd(front, op, k, row);
      } else {
        ReceiptsTellWhatHappened(front, k);
        ToldStays(front, op, k, s.disk[k].row, row);
      }
    }
  }

  // ---- what is answered from a receipt -----------------------------------

  /** The answer to a valid submit that finds a receipt after pruning, from the row on disk. */
  lemma SubmitAnswers(s: State, op: Op)
    requires op.OpSubmit? && IsClientTurnId(op.key.turn) && op.messageOk
    requires op.key in Prune(s, op.listings, true, op.pruneEnv).disk && op.key !in op.env.unreadable
    ensures var p := Prune(s, op.listings, true, op.pruneEnv); var row := p.disk[op.key].row;
      var (after, reply) := Submit(s, op.key, op.hash, true, op.resultRetained, op.listings, op.pruneEnv, op.env);
      && after.tasks == p.tasks && after.inflight == p.inflight && after.execLog == p.execLog
      && (row.requestHash != op.hash ==> reply == Conflict(row) && after == p)
      && (row.requestHash == op.hash ==>
            && (row.status.Completed? && op.resultRetained ==> reply == CompletedReplay && after == p)
            && (row.status.Completed? && !op.resultRetained ==> reply == CompletedResultExpired(row) && after == p)
            && (row.status.Failed? || row.status.InterruptedUnknown? ==> reply == Stored(row) && after == p)
            && (row.status.Running? && IsLive(p.inflight, p.tasks, op.key) ==> reply == InFlight(row) && after == p)
            && (row.status.Running? && !IsLive(p.inflight, p.tasks, op.key) && !op.env.Write(op.key).Written? ==> reply == WriteError)
            && (row.status.Running? && !IsLive(p.inflight, p.tasks, op.key) && op.env.Write(op.key).Written? ==>
                  var unknown := row.(status := InterruptedUnknown, errorCode := Some("execution_outcome_unknown"), updatedAt := op.env.now);
                  reply == OutcomeUnknown(Some(unknown)) && after.disk == p.disk[op.key := File(unknown, op.env.now)]))
  {
  }

  /** A recorded ending decides all later answers: through any further steps that neither
      remove nor lose the receipt, a submit of that request that still finds it is told
      the error code, or that the turn was completed, and starts nothing. */
  lemma EndedTurnIsAnswered(before: seq<Op>, finish: Op, more: seq<Op>, submit: Op, v: Verdict)
    requires AllProbed(before + [finish] + more)
    requires finish.OpFinish? && finish.t < |Run(before).tasks| && Run(before).tasks[finish.t].phase.Executing?
    requires Recorded(finish.e, finish.first, finish.second) && IsVerdict(finish.e, finish.first, v)
    requires submit.OpSubmit? && submit.key == Run(before).tasks[finish.t].key && submit.hash == Run(before).tasks[finish.t].requestHash
    requires IsClientTurnId(submit.key.turn) && submit.messageOk
    requires Run(before + [finish] + more).expired[submit.key] == Run(before + [finish]).expired[submit.key]
    requires Run(before + [finish] + more).lost[submit.key] == 0
    ensures var s := Run(before + [finish] + more); var k := submit.key;
      var (after, reply) := Submit(s, k, submit.hash, true, submit.resultRetained, submit.listings, submit.pruneEnv, submit.env);
      var row := Row(k.caller, k.turn, submit.hash, v.status, v.turnId, Run(before).tasks[finish.t].createdAt, finish.now, v.code);
      && k in s.disk && s.disk[k].row == row
      && (ReadRow(Prune(s, submit.listings, true, submit.pruneEnv).disk, submit.env, k).Some? ==>
            && after.tasks == s.tasks && after.execLog == s.execLog
            && reply == if v.status.Failed? then Stored(row) else if submit.resultRetained then CompletedReplay else CompletedResultExpired(row))
  {
    var ended := before + [finish];
    var s, k := Run(ended + more), submit.key;
    assert ended[..|before|] == before;
    EndingLeaves(Run(before), finish.t, finish.e, finish.first, finish.second, finish.now, v);
    StaysTerminal(ended, more, k);
    PruneSweeps(s, submit.listings, true, submit.pruneEnv, k);
    if ReadRow(Prune(s, submit.listings, true, submit.pruneEnv).disk, submit.env, k).Some? {
      SubmitAnswers(s, submit);
    }
  }

  /** What reading a receipt reports and leaves. */
  lemma ReadReports(s: State, k: Key, env: Env)
    ensures var (after, row, ok) := ReadReceipt(s, k, env);
      && after.tasks == s.tasks && after.inflight == s.inflight && after.execLog == s.execLog
      && (k !in s.disk || k in env.unreadable ==> row == None && ok && after == s)
      && (k in s.disk && k !in env.unreadable && (!s.disk[k].row.status.Running? || IsLive(s.inflight, s.tasks, k)) ==>
            row == Some(s.disk[k].row) && ok && after == s)
      && (k in s.disk && k !in env.unreadable && s.disk[k].row.status.Running? && !IsLive(s.inflight, s.tasks, k) ==>
            && (ok <==> env.Write(k).Written?)
            && (ok ==>
                  var unknown := s.disk[k].row.(status := InterruptedUnknown, errorCode := Some("execution_outcome_unknown"), updatedAt := env.now);
                  row == Some(unknown) && after.disk == s.disk[k := File(unknown, env.now)])
            && (!ok ==> after.disk == if env.Write(k).LostOld? then s.disk - {k} else s.disk))
  {
  }

  // ---- starting and forgetting -------------------------------------------

  /** Whoever executes, or has been recorded, was started: exactly once, by the log. */
  lemma {:induction false} ExecutingWasStarted(ops: seq<Op>, t: nat)
    requires t < |Run(ops).tasks| && Run(ops).tasks[t].phase.Executing?
    ensures t in multiset(Run(ops).execLog) && multiset(Run(ops).execLog)[t] == 1
    decreases |ops|
  {
    assert ops != [];
    var front, op := ops[..|ops| - 1], ops[|ops| - 1];
    RunInv(front);
    RunInv(ops);
    var s, log := Run(front), Run(ops).execLog;
    StepStarts(s, op, t);
    if t < |s.tasks| && s.tasks[t].phase.Executing? { ExecutingWasStarted(front, t); }
    assert t in log;
    OnceInLog(log, t);
  }

  lemma {:induction false} OnceInLog(log: seq<nat>, t: nat)
    requires t in log && forall i, j :: 0 <= i < j < |log| ==> log[i] != log[j]
    ensures multiset(log)[t] == 1
    decreases |log|
  {
    var n := |log| - 1;
    assert log == log[..n] + [log[n]];
    if log[n] == t {
      assert t !in log[..n];
    } else {
      OnceInLog(log[..n], t);
    }
  }

  ghost predicate Starts(s: State, after: State, t: nat)
    requires t < |after.tasks|
  {
    && (forall u :: u in s.execLog ==> u in after.execLog)
    && (after.tasks[t].phase.Executing? ==> t in after.execLog || (t < |s.tasks| && s.tasks[t].phase.Executing?))
  }

  lemma SubmitStarts(s: State, op: Op, t: nat)
    requires op.OpSubmit? && t < |Step(s, op).tasks|
    ensures Starts(s, Step(s, op), t)
  {
    if IsClientTurnId(op.key.turn) && op.messageOk {
      var p := Prune(s, op.listings, true, op.pruneEnv);
      PruneSweeps(s, op.listings, true, op.pruneEnv, op.key);
      var row := ReadRow(p.disk, op.env, op.key);
      if row.Some? {
        AnswerStartsNothing(p, op.key, op.hash, row.value, op.resultRetained, op.env);
      } else {
        BeginShape(p, op.key, op.hash, op.env);
      }
    }
  }

  lemma FinishStarts(s: State, op: Op, t: nat)
    requires op.OpFinish? && t < |Step(s, op).tasks|
    ensures Starts(s, Step(s, op), t)
  {
    FinishShape(s, op.t, op.e, op.first, op.second, op.now);
  }

  lemma StepStarts(s: State, op: Op, t: nat)
    requires Inv(s) && t < |Step(s, op).tasks|
    ensures Starts(s, Step(s, op), t)
  {
    match op
    case OpSubmit(_, _, _, _, _, _, _) => SubmitStarts(s, op, t);
    case OpStart(_) =>
    case OpFinish(_, _, _, _, _) => FinishStarts(s, op, t);
    case OpDrop(_) =>
    case OpCrash =>
    case OpRead(j, _) => QuietStep(s, op);
    case OpList(_, _, _) => QuietStep(s, op);
    case OpPrune(_, _, _) => QuietStep(s, op);
  }

  /** The done callback ends the entry of its task and no other, and no test of whether a
      turn is in flight comes out differently after it. */
  lemma ForgettingIsSilent(s: State, t: nat)
    requires t < |s.tasks| && s.tasks[t].phase.Done?
    ensures var after := DropTask(s, t);
      && after == s.(inflight := after.inflight)
      && (s.tasks[t].key in after.inflight ==> after.inflight[s.tasks[t].key] != t)
      && (forall k :: k in s.inflight && !(k == s.tasks[t].key && s.inflight[k] == t) ==> k in after.inflight && after.inflight[k] == s.inflight[k])
      && (forall k :: IsLive(after.inflight, after.tasks, k) <==> IsLive(s.inflight, s.tasks, k))
  {
  }
}
