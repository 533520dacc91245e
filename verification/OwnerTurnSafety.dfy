/** Safety of owner turns over every run: at most one execution per retained
    receipt, protection of live receipts, stability of terminal ones. */
module OwnerTurnSafety {
  import opened SafeWrite
  import opened OwnerTurns

  ghost function TasksFor(s: State, k: Key): set<nat> {
    set t: nat | t < |s.tasks| && s.tasks[t].key == k
  }

  function Here(s: State, k: Key): nat {
    if k in s.disk then 1 else 0
  }

  ghost predicate WellKeyed(s: State, k: Key) {
    k in s.disk ==> s.disk[k].row.caller == k.caller && s.disk[k].row.clientTurnId == k.turn && k.turn != ""
  }

  /** A live task owns the running receipt at `k`. */
  ghost predicate Pinned(s: State, k: Key) {
    WellKeyed(s, k) && k in s.disk && s.disk[k].row.status.Running? && IsLive(s.inflight, s.tasks, k)
  }

  /** `k`'s receipt is as it was, unless a failure took it or, when it was
      terminal, retention did. */
  ghost predicate Kept(s: State, s': State, k: Key)
    requires k in s.disk
  {
    || (k in s'.disk && s'.disk[k] == s.disk[k])
    || s'.lost[k] > s.lost[k]
    || (!s.disk[k].row.status.Running? && s'.expired[k] > s.expired[k])
  }

  /** The row is as it was, or was running and says now that its outcome is unknown. */
  predicate Followed(a: Row, b: Row) {
    b == a || (a.status.Running? && b == a.(status := InterruptedUnknown, errorCode := Some("execution_outcome_unknown"), updatedAt := b.updatedAt))
  }

  /** The effect at `k` of any mixture of marking and pruning. */
  ghost predicate Sweeps(s: State, s': State, k: Key, probe: bool)
  {
    && s'.tasks == s.tasks && s'.inflight == s.inflight && s'.execLog == s.execLog
    && s'.lost[k] >= s.lost[k] && s'.expired[k] >= s.expired[k]
    && s'.expired[k] + s'.lost[k] + Here(s', k) >= s.expired[k] + s.lost[k] + Here(s, k)
    && (k in s'.disk ==> k in s.disk)
    && (k in s'.disk ==> Followed(s.disk[k].row, s'.disk[k].row))
    && (k in s'.disk && s'.disk[k].row.status.Running? ==> s'.disk[k] == s.disk[k])
    && (k in s'.disk && !s.disk[k].row.status.Running? ==> s'.disk[k] == s.disk[k])
    && (k in s.disk && !s.disk[k].row.status.Running? ==> Kept(s, s', k))
    && (probe && Pinned(s, k) ==> Kept(s, s', k))
  }

  lemma SweepTrans(a: State, b: State, c: State, k: Key, probe: bool)
    requires Sweeps(a, b, k, probe) && Sweeps(b, c, k, probe)
    ensures Sweeps(a, c, k, probe)
  {
  }

  lemma MarkSweeps(s: State, j: Key, env: Env, probe: bool, k: Key)
    requires ReadRow(s.disk, env, j).Some? && s.disk[j].row.status.Running?
    requires !SeemsLive(s, j, s.disk[j].row, probe)
    ensures Sweeps(s, MarkInterrupted(s, j, s.disk[j].row, env), k, probe)
  {
  }

  lemma {:induction false} MarkPassSweeps(s: State, retained: set<Key>, listing: seq<Key>, probe: bool, env: Env, k: Key)
    ensures Sweeps(s, MarkPass(s, retained, listing, probe, env).0, k, probe)
    ensures retained <= MarkPass(s, retained, listing, probe, env).1
    ensures probe && Pinned(s, k) && k in listing && k !in env.unreadable
            ==> k in MarkPass(s, retained, listing, probe, env).1
    decreases |listing|
  {
    if listing != [] {
      var j := listing[0];
      var row := ReadRow(s.disk, env, j);
      if row.None? || !row.value.status.Running? {
        MarkPassSweeps(s, retained, listing[1..], probe, env, k);
      } else if SeemsLive(s, j, row.value, probe) {
        MarkPassSweeps(s, retained + {j}, listing[1..], probe, env, k);
      } else {
        var s1 := MarkInterrupted(s, j, row.value, env);
        var r1 := if env.Write(j).Written? then retained else retained + {j};
        MarkSweeps(s, j, env, probe, k);
        MarkPassSweeps(s1, r1, listing[1..], probe, env, k);
        SweepTrans(s, s1, MarkPass(s1, r1, listing[1..], probe, env).0, k, probe);
      }
    }
  }

  lemma {:induction false} UnlinkAllSweeps(s: State, listing: seq<Key>, env: Env, probe: bool, k: Key)
    requires probe && Pinned(s, k) && k in listing ==> k in env.unreadable
    ensures Sweeps(s, UnlinkAll(s, listing, env), k, probe)
    decreases |listing|
  {
    if listing != [] {
      var s1 := Unlink(s, listing[0], env);
      assert Sweeps(s, s1, k, probe);
      UnlinkAllSweeps(s1, listing[1..], env, probe, k);
      SweepTrans(s, s1, UnlinkAll(s1, listing[1..], env), k, probe);
    }
  }

  lemma {:induction false} UnlinkOldSweeps(s: State, listing: seq<Key>, env: Env, probe: bool, k: Key)
    requires probe && Pinned(s, k) && k in listing ==> k in env.unreadable
    ensures Sweeps(s, UnlinkOld(s, listing, env), k, probe)
    decreases |listing|
  {
    if listing != [] {
      if listing[0] in s.disk && s.disk[listing[0]].mtime < env.now - RETENTION_SECONDS {
        var s1 := Unlink(s, listing[0], env);
        assert Sweeps(s, s1, k, probe);
        UnlinkOldSweeps(s1, listing[1..], env, probe, k);
        SweepTrans(s, s1, UnlinkOld(s1, listing[1..], env), k, probe);
      } else {
        UnlinkOldSweeps(s, listing[1..], env, probe, k);
      }
    }
  }

  lemma PruneDirSweeps(s: State, listing: seq<Key>, probe: bool, env: Env, k: Key)
    ensures Sweeps(s, PruneDir(s, listing, probe, env), k, probe)
  {
    var (marked, retained) := MarkPass(s, {}, listing, probe, env);
    var candidates := Without(listing, retained);
    var n := Cap(|candidates|);
    var capped := UnlinkAll(marked, candidates[n..], env);
    MarkPassSweeps(s, {}, listing, probe, env, k);
    UnlinkAllSweeps(marked, candidates[n..], env, probe, k);
    UnlinkOldSweeps(capped, candidates[..n], env, probe, k);
    SweepTrans(s, marked, capped, k, probe);
    SweepTrans(s, capped, PruneDir(s, listing, probe, env), k, probe);
  }

  lemma {:induction false} PruneSweeps(s: State, listings: seq<seq<Key>>, probe: bool, env: Env, k: Key)
    ensures Sweeps(s, Prune(s, listings, probe, env), k, probe)
    decreases |listings|
  {
    if listings != [] {
      var s1 := PruneDir(s, listings[0], probe, env);
      PruneDirSweeps(s, listings[0], probe, env, k);
      PruneSweeps(s1, listings[1..], probe, env, k);
      SweepTrans(s, s1, Prune(s1, listings[1..], probe, env), k, probe);
    }
  }

  lemma {:induction false} ListSweeps(s: State, listing: seq<Key>, probe: bool, env: Env, k: Key)
    ensures Sweeps(s, ListSweep(s, listing, probe, env), k, probe)
    decreases |listing|
  {
    if listing != [] {
      var j := listing[0];
      var row := ReadRow(s.disk, env, j);
      if row.None? || !row.value.status.Running? || SeemsLive(s, j, row.value, probe) {
        ListSweeps(s, listing[1..], probe, env, k);
      } else {
        var s1 := MarkInterrupted(s, j, row.value, env);
        MarkSweeps(s, j, env, probe, k);
        ListSweeps(s1, listing[1..], probe, env, k);
        SweepTrans(s, s1, ListSweep(s1, listing[1..], probe, env), k, probe);
      }
    }
  }

  // ---- counting executions -----------------------------------------------

  /** The places in the executor log that belong to `k`. */
  ghost function StartsFor(s: State, k: Key): set<nat> {
    set i: nat | i < |s.execLog| && s.execLog[i] < |s.tasks| && s.tasks[s.execLog[i]].key == k
  }

  ghost predicate LogOk(s: State) {
    && (forall i :: 0 <= i < |s.execLog| ==> s.execLog[i] < |s.tasks| && !s.tasks[s.execLog[i]].phase.Created?)
    && (forall i, j :: 0 <= i < j < |s.execLog| ==> s.execLog[i] != s.execLog[j])
  }

  /** Every task for `k` but the one of the current receipt was preceded by the
      end of an earlier receipt. */
  ghost predicate Accounted(s: State, k: Key) {
    && WellKeyed(s, k)
    && |TasksFor(s, k)| <= s.expired[k] + s.lost[k] + Here(s, k)
    && (s.expired[k] + s.lost[k] == 0 ==>
         forall t :: 0 <= t < |s.tasks| && s.tasks[t].key == k ==>
           k in s.disk && s.disk[k].row.requestHash == s.tasks[t].requestHash)
  }

  ghost predicate InflightOk(s: State) {
    forall k :: k in s.inflight ==> s.inflight[k] < |s.tasks| && s.tasks[s.inflight[k]].key == k
  }

  lemma SweepAccounts(s: State, s': State, k: Key, probe: bool)
    requires Accounted(s, k) && Sweeps(s, s', k, probe)
    ensures Accounted(s', k)
  {
    assert TasksFor(s', k) == TasksFor(s, k);
  }

  /** A receipt written by a task or a submit at `j`, task keys unchanged. */
  lemma WriteAccounts(s: State, j: Key, row: Row, outcome: WriteOutcome, now: int, k: Key)
    requires Accounted(s, k)
    requires row.caller == j.caller && row.clientTurnId == j.turn && j.turn != ""
    requires j == k && s.expired[k] + s.lost[k] == 0 ==>
      forall t :: 0 <= t < |s.tasks| && s.tasks[t].key == k ==> row.requestHash == s.tasks[t].requestHash
    ensures Accounted(WriteRow(s, j, row, outcome, now), k)
  {
    assert TasksFor(WriteRow(s, j, row, outcome, now), k) == TasksFor(s, k);
  }

  lemma PhaseAccounts(s: State, t: nat, phase: Phase, k: Key)
    requires Accounted(s, k) && t < |s.tasks|
    ensures Accounted(s.(tasks := s.tasks[t := s.tasks[t].(phase := phase)]), k)
  {
    assert TasksFor(s.(tasks := s.tasks[t := s.tasks[t].(phase := phase)]), k) == TasksFor(s, k);
  }

  /** Not admitted: the old file may be gone, nothing else changed for any key. */
  lemma RefusedAccounts(s: State, j: Key, hash: string, env: Env, k: Key)
    requires Accounted(s, k) && !env.Write(j).Written?
    ensures Accounted(BeginTurn(s, j, hash, env).0, k)
  {
    assert TasksFor(BeginTurn(s, j, hash, env).0, k) == TasksFor(s, k);
  }

  lemma OtherAccounts(s: State, j: Key, hash: string, env: Env, k: Key)
    requires Accounted(s, k) && env.Write(j).Written? && j != k
    ensures Accounted(BeginTurn(s, j, hash, env).0, k)
  {
    assert TasksFor(BeginTurn(s, j, hash, env).0, k) == TasksFor(s, k);
  }

  /** Admitted under its own key: one more task, and one more receipt that is either
      new or takes the place of one that counts as lost. */
  lemma AdmittedAccounts(s: State, k: Key, hash: string, env: Env)
    requires Accounted(s, k) && IsClientTurnId(k.turn) && env.Write(k).Written?
    ensures Accounted(BeginTurn(s, k, hash, env).0, k)
  {
    assert TasksFor(BeginTurn(s, k, hash, env).0, k) == TasksFor(s, k) + {|s.tasks|};
  }

  lemma BeginAccounts(s: State, j: Key, hash: string, env: Env, k: Key)
    requires Accounted(s, k) && IsClientTurnId(j.turn)
    ensures Accounted(BeginTurn(s, j, hash, env).0, k)
  {
    if !env.Write(j).Written? {
      RefusedAccounts(s, j, hash, env, k);
    } else if j != k {
      OtherAccounts(s, j, hash, env, k);
    } else {
      AdmittedAccounts(s, k, hash, env);
    }
  }

  lemma RecoverSweeps(s: State, j: Key, live: bool, env: Env, probe: bool, k: Key)
    requires live <==> IsLive(s.inflight, s.tasks, j)
    requires WellKeyed(s, j)
    ensures Sweeps(s, Recover(s, j, live, env).0, k, probe)
  {
  }

  /** No task for `k` outlives the receipt that admitted it, unless a failing
      read or write took that receipt. */
  ghost predicate Owned(s: State, k: Key) {
    s.lost[k] == 0 ==>
      forall t :: 0 <= t < |s.tasks| && s.tasks[t].key == k && !s.tasks[t].phase.Done? ==>
        && k in s.inflight && s.inflight[k] == t
        && k in s.disk && s.disk[k].row.status.Running?
        && s.disk[k].row.requestHash == s.tasks[t].requestHash
  }

  ghost predicate Wired(s: State) {
    && LogOk(s) && InflightOk(s)
    && (forall t :: 0 <= t < |s.tasks| ==> s.tasks[t].key.turn != "")
  }

  ghost predicate Inv(s: State) {
    Wired(s) && (forall k :: Accounted(s, k))
  }

  lemma FinishAccounts(s: State, t: nat, e: Execution, first: WriteOutcome, second: WriteOutcome, now: int, k: Key)
    requires Accounted(s, k)
    requires t < |s.tasks| ==> s.tasks[t].key.turn != ""
    ensures Accounted(FinishTask(s, t, e, first, second, now), k)
  {
    if t < |s.tasks| && !s.tasks[t].phase.Done? {
      var task := s.tasks[t];
      var ended := s.(tasks := s.tasks[t := task.(phase := Done)]);
      PhaseAccounts(s, t, Done, k);
      match e
      case Cancelled =>
      case Raised(code) =>
        WriteAccounts(ended, task.key, FinalRow(task, Failed, None, Some(code), now), second, now, k);
      case Returned(turnId) =>
        if turnId == "" {
          WriteAccounts(ended, task.key, FinalRow(task, Failed, None, Some("RuntimeError"), now), second, now, k);
        } else {
          var row := FinalRow(task, Completed, Some(turnId), None, now);
          WriteAccounts(ended, task.key, row, first, now, k);
          if !first.Written? {
            var w := WriteRow(ended, task.key, row, first, now);
            WriteAccounts(w, task.key, FinalRow(task, Failed, None, Some("OSError"), now), second, now, k);
          }
        }
    }
  }

  lemma SubmitAccounts(s: State, op: Op, k: Key)
    requires op.OpSubmit? && Accounted(s, k) && Accounted(s, op.key)
    ensures Accounted(Step(s, op), k)
  {
    if IsClientTurnId(op.key.turn) && op.messageOk {
      var p := Prune(s, op.listings, true, op.pruneEnv);
      PruneSweeps(s, op.listings, true, op.pruneEnv, k);
      PruneSweeps(s, op.listings, true, op.pruneEnv, op.key);
      SweepAccounts(s, p, k, true);
      SweepAccounts(s, p, op.key, true);
      var row := ReadRow(p.disk, op.env, op.key);
      if row.Some? {
        if row.value.status.Running? && !IsLive(p.inflight, p.tasks, op.key) {
          var r := Recover(p, op.key, false, op.env).0;
          RecoverSweeps(p, op.key, false, op.env, true, k);
          SweepAccounts(p, r, k, true);
        }
      } else {
        BeginAccounts(p, op.key, op.hash, op.env, k);
      }
    }
  }

  lemma StepAccounts(s: State, op: Op, k: Key)
    requires Inv(s)
    ensures Accounted(Step(s, op), k)
  {
    assert Accounted(s, k);
    match op
    case OpSubmit(j, _, _, _, _, _, _) =>
      assert Accounted(s, j);
      SubmitAccounts(s, op, k);
    case OpStart(t) =>
      if t < |s.tasks| { PhaseAccounts(s, t, Executing, k); }
    case OpFinish(t, e, f, g, now) => FinishAccounts(s, t, e, f, g, now, k);
    case OpDrop(t) => assert TasksFor(DropTask(s, t), k) == TasksFor(s, k);
    case OpCrash => assert TasksFor(Crash(s), k) == TasksFor(s, k);
    case OpRead(j, e) =>
      assert Accounted(s, j);
      RecoverSweeps(s, j, IsLive(s.inflight, s.tasks, j), e, true, k);
      SweepAccounts(s, Step(s, op), k, true);
    case OpList(l, p, e) =>
      ListSweeps(s, l, p, e, k);
      SweepAccounts(s, Step(s, op), k, p);
    case OpPrune(l, p, e) =>
      PruneSweeps(s, l, p, e, k);
      SweepAccounts(s, Step(s, op), k, p);
  }

  /** Tasks, in-flight table and log after a transition that is not about tasks. */
  lemma QuietStep(s: State, op: Op)
    requires Inv(s) && (op.OpRead? || op.OpList? || op.OpPrune?)
    ensures Step(s, op).tasks == s.tasks && Step(s, op).inflight == s.inflight && Step(s, op).execLog == s.execLog
  {
    var k := Key("", "");
    match op
    case OpRead(j, e) =>
    case OpList(l, p, e) => ListSweeps(s, l, p, e, k);
    case OpPrune(l, p, e) => PruneSweeps(s, l, p, e, k);
  }

  /** What ending a task may touch: its phase and the receipt of its key. */
  ghost predicate OnlyReceipt(s: State, after: State, k: Key) {
    && after.inflight == s.inflight && after.execLog == s.execLog && after.tasks == s.tasks && after.expired == s.expired
    && (forall j :: after.lost[j] >= s.lost[j])
    && (forall j :: j != k ==>
          after.lost[j] == s.lost[j] && (j in after.disk <==> j in s.disk) && (j in s.disk ==> after.disk[j] == s.disk[j]))
  }

  lemma WriteShape(s: State, k: Key, row: Row, outcome: WriteOutcome, now: int)
    ensures OnlyReceipt(s, WriteRow(s, k, row, outcome, now), k)
  {
  }

  lemma WriteTwice(s: State, k: Key, a: Row, first: WriteOutcome, b: Row, second: WriteOutcome, now: int)
    ensures OnlyReceipt(s, WriteRow(WriteRow(s, k, a, first, now), k, b, second, now), k)
  {
    WriteShape(s, k, a, first, now);
    WriteShape(WriteRow(s, k, a, first, now), k, b, second, now);
  }

  lemma FinishShape(s: State, t: nat, e: Execution, first: WriteOutcome, second: WriteOutcome, now: int)
    ensures var after := FinishTask(s, t, e, first, second, now);
      after == s || (t < |s.tasks| && OnlyReceipt(s.(tasks := s.tasks[t := s.tasks[t].(phase := Done)]), after, s.tasks[t].key))
  {
    if t < |s.tasks| {
      var task := s.tasks[t];
      var ended := s.(tasks := s.tasks[t := task.(phase := Done)]);
      match e
      case Cancelled =>
      case Raised(code) =>
        WriteShape(ended, task.key, FinalRow(task, Failed, None, Some(code), now), second, now);
      case Returned(turnId) =>
        if turnId == "" {
          WriteShape(ended, task.key, FinalRow(task, Failed, None, Some("RuntimeError"), now), second, now);
        } else {
          WriteShape(ended, task.key, FinalRow(task, Completed, Some(turnId), None, now), first, now);
          WriteTwice(ended, task.key, FinalRow(task, Completed, Some(turnId), None, now), first,
                     FinalRow(task, Failed, None, Some("OSError"), now), second, now);
        }
    }
  }

  lemma BeginShape(s: State, k: Key, hash: string, env: Env)
    ensures var after := BeginTurn(s, k, hash, env).0;
      && after.execLog == s.execLog
      && ((after.tasks == s.tasks && after.inflight == s.inflight)
          || (after.tasks == s.tasks + [Task(k, hash, env.now, Created)] && after.inflight == s.inflight[k := |s.tasks|]))
  {
  }

  lemma BegunIsWired(s: State, after: State, task: Task)
    requires Wired(s) && task.key.turn != "" && after.execLog == s.execLog
    requires after.tasks == s.tasks + [task] && after.inflight == s.inflight[task.key := |s.tasks|]
    ensures Wired(after)
  {
  }

  lemma SameTasksWired(s: State, after: State)
    requires Wired(s) && after.execLog == s.execLog && after.tasks == s.tasks && after.inflight == s.inflight
    ensures Wired(after)
  {
  }

  lemma SubmitShape(s: State, op: Op)
    requires op.OpSubmit? && Wired(s)
    ensures Wired(Step(s, op))
  {
    if IsClientTurnId(op.key.turn) && op.messageOk {
      var p := Prune(s, op.listings, true, op.pruneEnv);
      var after := Step(s, op);
      PruneSweeps(s, op.listings, true, op.pruneEnv, op.key);
      SameTasksWired(s, p);
      if ReadRow(p.disk, op.env, op.key).None? { BeginShape(p, op.key, op.hash, op.env); }
      if after.tasks == p.tasks && after.inflight == p.inflight {
        SameTasksWired(p, after);
      } else {
        BegunIsWired(p, after, Task(op.key, op.hash, op.env.now, Created));
      }
    }
  }

  lemma StepWired(s: State, op: Op)
    requires Inv(s)
    ensures Wired(Step(s, op))
  {
    match op
    case OpSubmit(_, _, _, _, _, _, _) => SubmitShape(s, op);
    case OpStart(t) =>
    case OpFinish(t, e, f, g, now) => FinishShape(s, t, e, f, g, now);
    case OpDrop(_) =>
    case OpCrash =>
    case OpRead(_, _) => QuietStep(s, op);
    case OpList(_, _, _) => QuietStep(s, op);
    case OpPrune(_, _, _) => QuietStep(s, op);
  }

  lemma StepInv(s: State, op: Op)
    requires Inv(s)
    ensures Inv(Step(s, op))
  {
    forall k ensures Accounted(Step(s, op), k) { StepAccounts(s, op, k); }
    StepWired(s, op);
  }

  lemma {:induction false} RunInv(ops: seq<Op>)
    ensures Inv(Run(ops))
    decreases |ops|
  {
    if ops == [] {
      forall k ensures Accounted(INIT, k) { assert TasksFor(INIT, k) == {}; }
    } else {
      RunInv(ops[..|ops| - 1]);
      StepInv(Run(ops[..|ops| - 1]), ops[|ops| - 1]);
    }
  }

  // ---- ownership ---------------------------------------------------------

  lemma SweepOwned(s: State, s': State, k: Key)
    requires Sweeps(s, s', k, true) && Owned(s, k) && WellKeyed(s, k) && InflightOk(s)
    ensures Owned(s', k)
  {
  }

  lemma BeginOwned(s: State, j: Key, hash: string, env: Env, k: Key)
    requires Owned(s, k) && ReadRow(s.disk, env, j).None?
    ensures Owned(BeginTurn(s, j, hash, env).0, k)
  {
    var s' := BeginTurn(s, j, hash, env).0;
    if j == k && env.Write(j).Written? {
      assert s.lost[k] == 0 && s'.lost[k] == 0 ==> k !in s.disk;
    }
  }

  lemma SubmitOwned(s: State, op: Op, k: Key)
    requires op.OpSubmit? && InflightOk(s) && Accounted(s, k) && Accounted(s, op.key) && Owned(s, k)
    ensures Owned(Step(s, op), k)
  {
    if IsClientTurnId(op.key.turn) && op.messageOk {
      var p := Prune(s, op.listings, true, op.pruneEnv);
      PruneSweeps(s, op.listings, true, op.pruneEnv, k);
      PruneSweeps(s, op.listings, true, op.pruneEnv, op.key);
      SweepOwned(s, p, k);
      AnswerOwned(p, op.key, op.hash, op.resultRetained, op.env, k);
    }
  }

  lemma AnswerOwned(p: State, j: Key, hash: string, resultRetained: bool, env: Env, k: Key)
    requires InflightOk(p) && WellKeyed(p, j) && WellKeyed(p, k) && Owned(p, k)
    ensures ReadRow(p.disk, env, j).Some? ==>
      Owned(Answer(p, j, hash, ReadRow(p.disk, env, j).value, resultRetained, env).0, k)
    ensures ReadRow(p.disk, env, j).None? ==> Owned(BeginTurn(p, j, hash, env).0, k)
  {
    var row := ReadRow(p.disk, env, j);
    if row.None? {
      BeginOwned(p, j, hash, env, k);
    } else if row.value.status.Running? && !IsLive(p.inflight, p.tasks, j) {
      RecoverSweeps(p, j, false, env, true, k);
      SweepOwned(p, Recover(p, j, false, env).0, k);
    }
  }

  lemma FinishOwned(s: State, op: Op, k: Key)
    requires op.OpFinish? && Owned(s, k)
    ensures Owned(Step(s, op), k)
  {
    FinishShape(s, op.t, op.e, op.first, op.second, op.now);
  }

  lemma StepOwned(s: State, op: Op, k: Key)
    requires Inv(s) && Owned(s, k) && Probed(op)
    ensures Owned(Step(s, op), k)
  {
    assert Accounted(s, k);
    match op
    case OpSubmit(_, _, _, _, _, _, _) => SubmitOwned(s, op, k);
    case OpStart(_) =>
    case OpFinish(_, _, _, _, _) => FinishOwned(s, op, k);
    case OpDrop(_) =>
    case OpCrash =>
    case OpRead(j, e) =>
      assert Accounted(s, j);
      RecoverSweeps(s, j, IsLive(s.inflight, s.tasks, j), e, true, k);
      SweepOwned(s, Step(s, op), k);
    case OpList(l, _, e) =>
      ListSweeps(s, l, true, e, k);
      SweepOwned(s, Step(s, op), k);
    case OpPrune(l, _, e) =>
      PruneSweeps(s, l, true, e, k);
      SweepOwned(s, Step(s, op), k);
  }

  lemma {:induction false} RunOwned(ops: seq<Op>, k: Key)
    requires AllProbed(ops)
    ensures Owned(Run(ops), k)
    decreases |ops|
  {
    if ops != [] {
      var before := ops[..|ops| - 1];
      assert forall i :: 0 <= i < |before| ==> before[i] == ops[i];
      RunOwned(before, k);
      RunInv(before);
      StepOwned(Run(before), ops[|ops| - 1], k);
    }
  }

  // ---- main results ------------------------------------------------------

  lemma {:induction false} DistinctImage(log: seq<nat>, places: set<nat>)
    requires forall i :: i in places ==> i < |log|
    requires forall i, j :: 0 <= i < j < |log| ==> log[i] != log[j]
    ensures |set i | i in places :: log[i]| == |places|
    decreases |places|
  {
    if places != {} {
      var p :| p in places;
      var rest := places - {p};
      DistinctImage(log, rest);
      assert (set i | i in places :: log[i]) == (set i | i in rest :: log[i]) + {log[p]};
      assert log[p] !in (set i | i in rest :: log[i]);
    }
  }

  /** In every run, each execution for `k` beyond the first needs a receipt of `k`
      to have gone: removed by retention, or taken by a failing read or write. */
  lemma AtMostOncePerReceipt(ops: seq<Op>, k: Key)
    ensures var s := Run(ops);
      |StartsFor(s, k)| <= s.expired[k] + s.lost[k] + Here(s, k)
  {
    var s := Run(ops);
    RunInv(ops);
    assert Accounted(s, k);
    DistinctImage(s.execLog, StartsFor(s, k));
    var ids := set i | i in StartsFor(s, k) :: s.execLog[i];
    assert ids <= TasksFor(s, k);
    SubsetSize(ids, TasksFor(s, k));
  }

  lemma SubsetSize<T>(a: set<T>, b: set<T>)
    requires a <= b
    ensures |a| <= |b|
  {
    assert b == a + (b - a);
  }

  /** While the receipt is retained and readable, the turn is executed at most
      once, and only with the request that the receipt records. */
  lemma AtMostOnceWhileRetained(ops: seq<Op>, k: Key)
    requires Run(ops).expired[k] == 0 && Run(ops).lost[k] == 0
    ensures var s := Run(ops);
      && |StartsFor(s, k)| <= 1
      && (forall i :: i in StartsFor(s, k) ==>
           k in s.disk && s.tasks[s.execLog[i]].requestHash == s.disk[k].row.requestHash)
  {
    AtMostOncePerReceipt(ops, k);
    RunInv(ops);
    assert Accounted(Run(ops), k);
  }

  /** A submit creates a task exactly when the request is valid, no readable
      receipt is left after retention and the running receipt could be written;
      a receipt with another request hash answers with a conflict. */
  lemma SubmitDecides(s: State, op: Op)
    requires op.OpSubmit?
    ensures var p := Prune(s, op.listings, true, op.pruneEnv);
      var (s', reply) := Submit(s, op.key, op.hash, op.messageOk, op.resultRetained, op.listings, op.pruneEnv, op.env);
      var valid := IsClientTurnId(op.key.turn) && op.messageOk;
      && (reply.Accepted? <==> valid && ReadRow(p.disk, op.env, op.key).None? && op.env.Write(op.key).Written?)
      && (|s'.tasks| > |s.tasks| <==> reply.Accepted?)
      && s'.execLog == s.execLog
      && (valid && ReadRow(p.disk, op.env, op.key).Some? && p.disk[op.key].row.requestHash != op.hash
          ==> reply == Conflict(p.disk[op.key].row) && s' == p)
  {
    PruneSweeps(s, op.listings, true, op.pruneEnv, op.key);
    var p := Prune(s, op.listings, true, op.pruneEnv);
    if ReadRow(p.disk, op.env, op.key).Some? {
      AnswerStartsNothing(p, op.key, op.hash, p.disk[op.key].row, op.resultRetained, op.env);
    }
  }

  lemma AnswerStartsNothing(s: State, k: Key, hash: string, row: Row, resultRetained: bool, env: Env)
    ensures var (after, reply) := Answer(s, k, hash, row, resultRetained, env);
      && !reply.Accepted? && after.tasks == s.tasks && after.execLog == s.execLog
      && (row.requestHash != hash ==> reply == Conflict(row) && after == s)
  {
  }

  /** If every pass uses the real in-flight test, the receipt of a task that has
      not ended is on disk, still running, and carries the task's request. */
  lemma LiveReceiptProtected(ops: seq<Op>, t: nat)
    requires AllProbed(ops) && t < |Run(ops).tasks| && !Run(ops).tasks[t].phase.Done?
    requires Run(ops).lost[Run(ops).tasks[t].key] == 0
    ensures var s := Run(ops); var k := s.tasks[t].key;
      && k in s.disk && s.disk[k].row.status.Running?
      && s.disk[k].row.requestHash == s.tasks[t].requestHash
      && IsLive(s.inflight, s.tasks, k)
  {
    RunOwned(ops, Run(ops).tasks[t].key);
  }

  lemma FinishIsFinal(s: State, t: nat, e: Execution, first: WriteOutcome, second: WriteOutcome, now: int, k: Key)
    requires Owned(s, k) && k in s.disk && !s.disk[k].row.status.Running?
    ensures var after := FinishTask(s, t, e, first, second, now);
      (k in after.disk && after.disk[k] == s.disk[k]) || after.lost[k] > 0
  {
    FinishShape(s, t, e, first, second, now);
  }

  /** A terminal receipt stays as it is until retention removes it. */
  lemma TerminalIsFinal(ops: seq<Op>, op: Op, k: Key)
    requires AllProbed(ops) && Probed(op)
    requires k in Run(ops).disk && !Run(ops).disk[k].row.status.Running?
    ensures var s := Run(ops); var s' := Step(s, op);
      || (k in s'.disk && s'.disk[k] == s.disk[k])
      || s'.expired[k] > s.expired[k]
      || s'.lost[k] > 0
  {
    var s := Run(ops);
    RunInv(ops);
    RunOwned(ops, k);
    assert Accounted(s, k);
    match op
    case OpSubmit(j, _, _, _, l, pe, e) =>
      assert Accounted(s, j);
      SubmitIsFinal(s, op, k);
    case OpStart(_) =>
    case OpFinish(t, e, f, g, now) => FinishIsFinal(s, t, e, f, g, now, k);
    case OpDrop(_) =>
    case OpCrash =>
    case OpRead(j, e) =>
      assert Accounted(s, j);
      RecoverSweeps(s, j, IsLive(s.inflight, s.tasks, j), e, true, k);
    case OpList(l, p, e) => ListSweeps(s, l, p, e, k);
    case OpPrune(l, p, e) => PruneSweeps(s, l, p, e, k);
  }

  lemma KeptTrans(a: State, b: State, c: State, k: Key)
    requires k in a.disk && Kept(a, b, k) && (k in b.disk ==> Kept(b, c, k))
    requires c.lost[k] >= b.lost[k] && c.expired[k] >= b.expired[k]
    requires b.lost[k] >= a.lost[k] && b.expired[k] >= a.expired[k]
    ensures Kept(a, c, k)
  {
  }

  lemma AnswerKeeps(s: State, j: Key, hash: string, row: Row, resultRetained: bool, env: Env, k: Key)
    requires ReadRow(s.disk, env, j) == Some(row) && WellKeyed(s, j)
    ensures Sweeps(s, Answer(s, j, hash, row, resultRetained, env).0, k, true)
  {
    RecoverSweeps(s, j, IsLive(s.inflight, s.tasks, j), env, true, k);
  }

  lemma BeginKeeps(s: State, j: Key, hash: string, env: Env, k: Key)
    requires ReadRow(s.disk, env, j).None?
    ensures var after := BeginTurn(s, j, hash, env).0;
      && after.lost[k] >= s.lost[k] && after.expired[k] >= s.expired[k]
      && (k in s.disk ==> Kept(s, after, k))
  {
  }

  lemma SubmitIsFinal(s: State, op: Op, k: Key)
    requires op.OpSubmit? && WellKeyed(s, op.key)
    requires k in s.disk && !s.disk[k].row.status.Running?
    ensures Kept(s, Step(s, op), k)
  {
    if IsClientTurnId(op.key.turn) && op.messageOk {
      var p := Prune(s, op.listings, true, op.pruneEnv);
      PruneSweeps(s, op.listings, true, op.pruneEnv, k);
      PruneSweeps(s, op.listings, true, op.pruneEnv, op.key);
      var row := ReadRow(p.disk, op.env, op.key);
      if row.Some? {
        AnswerKeeps(p, op.key, op.hash, row.value, op.resultRetained, op.env, k);
      } else {
        BeginKeeps(p, op.key, op.hash, op.env, k);
      }
      KeptTrans(s, p, Step(s, op), k);
    }
  }

  /** After a crash, reading a running receipt reports an unknown outcome, writes
      it down, and later submits of the same request repeat that answer. */
  lemma CrashIsReportedUnknown(ops: seq<Op>, k: Key, env: Env)
    requires k in Run(ops).disk && Run(ops).disk[k].row.status.Running?
    requires k !in env.unreadable && env.Write(k).Written?
    ensures var s := Crash(Run(ops)); var row := Interrupted(s.disk[k].row, env.now);
      && ReadReceipt(s, k, env) == (s.(disk := s.disk[k := File(row, env.now)]), Some(row), true)
      && forall resultRetained, env2: Env ::
           Answer(ReadReceipt(s, k, env).0, k, row.requestHash, row, resultRetained, env2) ==
           (ReadReceipt(s, k, env).0, Stored(row))
  {
  }

  /** Removals and losses are only ever added. */
  lemma StepGrows(s: State, op: Op, k: Key)
    requires Inv(s)
    ensures Step(s, op).expired[k] >= s.expired[k] && Step(s, op).lost[k] >= s.lost[k]
  {
    match op
    case OpSubmit(j, hash, m, r, l, pe, e) =>
      assert Accounted(s, j);
      if IsClientTurnId(j.turn) && m {
        var p := Prune(s, l, true, pe);
        PruneSweeps(s, l, true, pe, k);
        PruneSweeps(s, l, true, pe, j);
        var row := ReadRow(p.disk, e, j);
        if row.Some? { AnswerKeeps(p, j, hash, row.value, r, e, k); } else { BeginKeeps(p, j, hash, e, k); }
      }
    case OpStart(_) =>
    case OpFinish(t, e, f, g, now) => FinishShape(s, t, e, f, g, now);
    case OpDrop(_) =>
    case OpCrash =>
    case OpRead(j, e) =>
      assert Accounted(s, j);
      RecoverSweeps(s, j, IsLive(s.inflight, s.tasks, j), e, true, k);
    case OpList(l, p, e) => ListSweeps(s, l, p, e, k);
    case OpPrune(l, p, e) => PruneSweeps(s, l, p, e, k);
  }

  lemma RunMore(ops: seq<Op>, front: seq<Op>, op: Op)
    ensures Run(ops + (front + [op])) == Step(Run(ops + front), op)
    ensures AllProbed(ops + (front + [op])) ==> AllProbed(ops + front) && Probed(op)
  {
    var all := ops + (front + [op]);
    assert all[..|all| - 1] == ops + front && all[|all| - 1] == op;
    assert forall i :: 0 <= i < |ops + front| ==> (ops + front)[i] == all[i];
  }

  lemma {:induction false} GrowsFrom(ops: seq<Op>, more: seq<Op>, k: Key)
    ensures Run(ops + more).expired[k] >= Run(ops).expired[k] && Run(ops + more).lost[k] >= Run(ops).lost[k]
    decreases |more|
  {
    if more == [] {
      assert ops + more == ops;
    } else {
      var front, op := more[..|more| - 1], more[|more| - 1];
      assert more == front + [op];
      RunMore(ops, front, op);
      GrowsFrom(ops, front, k);
      RunInv(ops + front);
      StepGrows(Run(ops + front), op, k);
    }
  }

  /** A terminal receipt is found unchanged after any further steps in which it was
      neither removed nor lost. */
  lemma {:induction false} StaysTerminal(ops: seq<Op>, more: seq<Op>, k: Key)
    requires AllProbed(ops + more)
    requires k in Run(ops).disk && !Run(ops).disk[k].row.status.Running?
    requires Run(ops + more).expired[k] == Run(ops).expired[k] && Run(ops + more).lost[k] == 0
    ensures k in Run(ops + more).disk && Run(ops + more).disk[k] == Run(ops).disk[k]
    decreases |more|
  {
    if more == [] {
      assert ops + more == ops;
    } else {
      var front, op := more[..|more| - 1], more[|more| - 1];
      assert more == front + [op];
      RunMore(ops, front, op);
      RunInv(ops + front);
      StepGrows(Run(ops + front), op, k);
      GrowsFrom(ops, front, k);
      StaysTerminal(ops, front, k);
      TerminalIsFinal(ops + front, op, k);
    }
  }

  lemma StoredAnswer(s: State, op: Op)
    requires op.OpSubmit? && IsClientTurnId(op.key.turn) && op.messageOk
    requires op.key in s.disk && s.disk[op.key].row.status.InterruptedUnknown? && s.disk[op.key].row.requestHash == op.hash
    ensures var p := Prune(s, op.listings, true, op.pruneEnv);
      var (after, reply) := Submit(s, op.key, op.hash, op.messageOk, op.resultRetained, op.listings, op.pruneEnv, op.env);
      ReadRow(p.disk, op.env, op.key).Some? ==> reply == Stored(s.disk[op.key].row) && after.tasks == s.tasks
  {
    PruneSweeps(s, op.listings, true, op.pruneEnv, op.key);
  }

  /** The answer after a crash: once a read has recovered the receipt of a turn that was
      running, then through any further steps, every later submit of that request that
      still finds the receipt is answered with the unknown outcome and starts nothing. */
  lemma CrashedTurnIsNotRepeated(before: seq<Op>, k: Key, env: Env, more: seq<Op>, submit: Op)
    requires AllProbed(before + [OpCrash] + [OpRead(k, env)] + more)
    requires k in Run(before).disk && Run(before).disk[k].row.status.Running?
    requires k !in env.unreadable && env.Write(k).Written?
    requires var s := Run(before + [OpCrash] + [OpRead(k, env)] + more); s.expired[k] == Run(before).expired[k] && s.lost[k] == 0
    requires submit.OpSubmit? && submit.key == k && IsClientTurnId(k.turn) && submit.messageOk
    requires submit.hash == Run(before).disk[k].row.requestHash
    ensures var s := Run(before + [OpCrash] + [OpRead(k, env)] + more);
      var p := Prune(s, submit.listings, true, submit.pruneEnv);
      var (after, reply) := Submit(s, k, submit.hash, true, submit.resultRetained, submit.listings, submit.pruneEnv, submit.env);
      && k in s.disk && s.disk[k].row == Interrupted(Run(before).disk[k].row, env.now)
      && (ReadRow(p.disk, submit.env, k).Some? ==> reply == Stored(s.disk[k].row) && after.tasks == s.tasks)
  {
    var crashed, read := before + [OpCrash], before + [OpCrash] + [OpRead(k, env)];
    assert crashed[..|before|] == before && read[..|crashed|] == crashed;
    CrashIsReportedUnknown(before, k, env);
    assert Run(read).disk == Run(before).disk[k := File(Interrupted(Run(before).disk[k].row, env.now), env.now)];
    assert Run(read).expired == Run(before).expired;
    StaysTerminal(read, more, k);
    StoredAnswer(Run(read + more), submit);
  }

  // ---- retention ---------------------------------------------------------

  /** Receipts that pruning leaves alone: running ones with a live task, and those
      whose recovery could not be written. */
  predicate Spared(s: State, k: Key, probe: bool, env: Env) {
    && k in s.disk && k !in env.unreadable && s.disk[k].row.status.Running?
    && (SeemsLive(s, k, s.disk[k].row, probe) || !env.Write(k).Written?)
  }

  lemma {:induction false} MarkPassRetains(s: State, retained: set<Key>, listing: seq<Key>, probe: bool, env: Env)
    requires forall i, j :: 0 <= i < j < |listing| ==> listing[i] != listing[j]
    ensures forall k :: k in MarkPass(s, retained, listing, probe, env).1 <==>
              k in retained || (k in listing && Spared(s, k, probe, env))
    decreases |listing|
  {
    if listing != [] {
      var j := listing[0];
      var row := ReadRow(s.disk, env, j);
      if row.None? || !row.value.status.Running? {
        MarkPassRetains(s, retained, listing[1..], probe, env);
      } else if SeemsLive(s, j, row.value, probe) {
        MarkPassRetains(s, retained + {j}, listing[1..], probe, env);
      } else {
        var s1 := MarkInterrupted(s, j, row.value, env);
        MarkPassRetains(s1, if env.Write(j).Written? then retained else retained + {j}, listing[1..], probe, env);
        assert forall k :: k in listing[1..] ==> k != j && (Spared(s1, k, probe, env) <==> Spared(s, k, probe, env));
      }
    }
  }

  lemma {:induction false} UnlinkAllRemoves(s: State, listing: seq<Key>, env: Env)
    requires env.stuck == {}
    ensures forall k :: k in UnlinkAll(s, listing, env).disk <==> k in s.disk && k !in listing
    decreases |listing|
  {
    if listing != [] { UnlinkAllRemoves(Unlink(s, listing[0], env), listing[1..], env); }
  }

  lemma {:induction false} UnlinkOldRemoves(s: State, listing: seq<Key>, env: Env)
    requires env.stuck == {}
    ensures var s' := UnlinkOld(s, listing, env);
      && (forall k :: k in s'.disk ==> k in s.disk && s'.disk[k] == s.disk[k])
      && (forall k :: k in listing && k in s'.disk ==> s'.disk[k].mtime >= env.now - RETENTION_SECONDS)
    decreases |listing|
  {
    if listing != [] {
      var s1 := if listing[0] in s.disk && s.disk[listing[0]].mtime < env.now - RETENTION_SECONDS then Unlink(s, listing[0], env) else s;
      UnlinkOldRemoves(s1, listing[1..], env);
    }
  }

  lemma {:induction false} DistinctCount(listing: seq<Key>, keep: set<Key>)
    requires forall k :: k in keep ==> k in listing
    ensures |keep| <= |listing|
    decreases |listing|
  {
    if listing != [] {
      DistinctCount(listing[1..], keep - {listing[0]});
      SubsetSize(keep, (keep - {listing[0]}) + {listing[0]});
    } else {
      assert keep == {};
    }
  }

  lemma {:induction false} WithoutKeeps(listing: seq<Key>, retained: set<Key>)
    ensures forall k :: k in Without(listing, retained) <==> k in listing && k !in retained
    decreases |listing|
  {
    if listing != [] { WithoutKeeps(listing[1..], retained); }
  }

  /** What the two removal loops leave of the listing is among the newest candidates,
      none of them old. */
  lemma PruneLeaves(s: State, listing: seq<Key>, probe: bool, env: Env, k: Key)
    requires forall i, j :: 0 <= i < j < |listing| ==> listing[i] != listing[j]
    requires env.stuck == {}
    requires k in listing && k in PruneDir(s, listing, probe, env).disk && !Spared(s, k, probe, env)
    ensures var candidates := Without(listing, MarkPass(s, {}, listing, probe, env).1);
      k in candidates[..Cap(|candidates|)] && PruneDir(s, listing, probe, env).disk[k].mtime >= env.now - RETENTION_SECONDS
  {
    var (marked, retained) := MarkPass(s, {}, listing, probe, env);
    var candidates := Without(listing, retained);
    var n := Cap(|candidates|);
    MarkPassRetains(s, {}, listing, probe, env);
    WithoutKeeps(listing, retained);
    UnlinkAllRemoves(marked, candidates[n..], env);
    UnlinkOldRemoves(UnlinkAll(marked, candidates[n..], env), candidates[..n], env);
    InFront(candidates, n, k);
  }

  lemma InFront(keys: seq<Key>, n: nat, k: Key)
    requires n <= |keys| && k in keys && k !in keys[n..]
    ensures k in keys[..n]
  {
    assert keys == keys[..n] + keys[n..];
  }

  /** After pruning a directory whose files can be removed, at most 1000 receipts
      that it did not have to spare remain, none older than 30 days. */
  lemma PruneBoundsDirectory(s: State, listing: seq<Key>, probe: bool, env: Env)
    requires forall i, j :: 0 <= i < j < |listing| ==> listing[i] != listing[j]
    requires env.stuck == {}
    ensures var s' := PruneDir(s, listing, probe, env);
      var rest := set k | k in listing && k in s'.disk && !Spared(s, k, probe, env);
      |rest| <= MAX_RECEIPTS_PER_CALLER && forall k :: k in rest ==> s'.disk[k].mtime >= env.now - RETENTION_SECONDS
  {
    var s' := PruneDir(s, listing, probe, env);
    var rest := set k | k in listing && k in s'.disk && !Spared(s, k, probe, env);
    var candidates := Without(listing, MarkPass(s, {}, listing, probe, env).1);
    var newest := candidates[..Cap(|candidates|)];
    forall k | k in rest ensures k in newest && s'.disk[k].mtime >= env.now - RETENTION_SECONDS {
      PruneLeaves(s, listing, probe, env, k);
    }
    DistinctCount(newest, rest);
  }

  /** A readable running receipt without a live task. */
  predicate Dead(s: State, k: Key, probe: bool, env: Env)
    requires k in s.disk
  {
    k !in env.unreadable && s.disk[k].row.status.Running? && !SeemsLive(s, k, s.disk[k].row, probe)
  }

  /** What the first pass leaves of a receipt: the interrupted one if it was dead and
      could be written, else the same. */
  function Marked(s: State, k: Key, probe: bool, env: Env): File
    requires k in s.disk
  {
    if Dead(s, k, probe, env) && env.Write(k).Written? then File(Interrupted(s.disk[k].row, env.now), env.now) else s.disk[k]
  }

  lemma {:induction false} MarkPassKeeps(s: State, retained: set<Key>, listing: seq<Key>, probe: bool, env: Env, k: Key)
    requires k in s.disk && !env.Write(k).LostOld?
    ensures var marked := MarkPass(s, retained, listing, probe, env).0;
      k in marked.disk && marked.disk[k] == if k in listing then Marked(s, k, probe, env) else s.disk[k]
    decreases |listing|
  {
    if listing != [] {
      var j := listing[0];
      var row := ReadRow(s.disk, env, j);
      if row.None? || !row.value.status.Running? {
        MarkPassKeeps(s, retained, listing[1..], probe, env, k);
      } else if SeemsLive(s, j, row.value, probe) {
        MarkPassKeeps(s, retained + {j}, listing[1..], probe, env, k);
      } else {
        var s1 := MarkInterrupted(s, j, row.value, env);
        MarkPassKeeps(s1, if env.Write(j).Written? then retained else retained + {j}, listing[1..], probe, env, k);
      }
    }
  }

  lemma {:induction false} UnlinkAllKeeps(s: State, listing: seq<Key>, env: Env, k: Key)
    requires k in s.disk && k !in listing
    ensures k in UnlinkAll(s, listing, env).disk && UnlinkAll(s, listing, env).disk[k] == s.disk[k]
    decreases |listing|
  {
    if listing != [] { UnlinkAllKeeps(Unlink(s, listing[0], env), listing[1..], env, k); }
  }

  lemma {:induction false} UnlinkOldKeeps(s: State, listing: seq<Key>, env: Env, k: Key)
    requires k in s.disk && (k !in listing || s.disk[k].mtime >= env.now - RETENTION_SECONDS)
    ensures k in UnlinkOld(s, listing, env).disk && UnlinkOld(s, listing, env).disk[k] == s.disk[k]
    decreases |listing|
  {
    if listing != [] {
      var s1 := if listing[0] in s.disk && s.disk[listing[0]].mtime < env.now - RETENTION_SECONDS then Unlink(s, listing[0], env) else s;
      UnlinkOldKeeps(s1, listing[1..], env, k);
    }
  }

  lemma {:induction false} CandidateAt(listing: seq<Key>, retained: set<Key>, i: nat) returns (j: nat)
    requires i < |listing| && listing[i] !in retained
    ensures j <= i && j < |Without(listing, retained)| && Without(listing, retained)[j] == listing[i]
    decreases |listing|
  {
    if i == 0 {
      j := 0;
    } else {
      var m := CandidateAt(listing[1..], retained, i - 1);
      j := if listing[0] in retained then m else m + 1;
    }
  }

  lemma {:induction false} CandidatesDiffer(listing: seq<Key>, retained: set<Key>)
    requires forall i, j :: 0 <= i < j < |listing| ==> listing[i] != listing[j]
    ensures forall i, j :: 0 <= i < j < |Without(listing, retained)| ==> Without(listing, retained)[i] != Without(listing, retained)[j]
    decreases |listing|
  {
    if listing != [] {
      CandidatesDiffer(listing[1..], retained);
      assert listing[0] !in listing[1..];
    }
  }

  lemma NotBeyondCap(listing: seq<Key>, retained: set<Key>, i: nat)
    requires forall i, j :: 0 <= i < j < |listing| ==> listing[i] != listing[j]
    requires i < |listing| && i < MAX_RECEIPTS_PER_CALLER
    ensures var candidates := Without(listing, retained); listing[i] !in candidates[Cap(|candidates|)..]
  {
    var candidates := Without(listing, retained);
    if listing[i] !in retained {
      var j := CandidateAt(listing, retained, i);
      CandidatesDiffer(listing, retained);
    }
  }

  /** Retention removes nothing else: one of the 1000 newest receipts of a caller that
      is not older than 30 days survives pruning, as it was or, if it was running
      without a live task, as interrupted. */
  lemma PruneKeepsYoung(s: State, listing: seq<Key>, probe: bool, env: Env, i: nat)
    requires forall i, j :: 0 <= i < j < |listing| ==> listing[i] != listing[j]
    requires i < |listing| && i < MAX_RECEIPTS_PER_CALLER
    requires listing[i] in s.disk && s.disk[listing[i]].mtime >= env.now - RETENTION_SECONDS && !env.Write(listing[i]).LostOld?
    ensures var k := listing[i]; var after := PruneDir(s, listing, probe, env);
      k in after.disk && after.disk[k] == Marked(s, k, probe, env)
  {
    var k := listing[i];
    var (marked, retained) := MarkPass(s, {}, listing, probe, env);
    var candidates := Without(listing, retained);
    MarkPassKeeps(s, {}, listing, probe, env, k);
    NotBeyondCap(listing, retained, i);
    UnlinkAllKeeps(marked, candidates[Cap(|candidates|)..], env, k);
    UnlinkOldKeeps(UnlinkAll(marked, candidates[Cap(|candidates|)..], env), candidates[..Cap(|candidates|)], env, k);
  }

  // ---- listing without the in-flight test ---------------------------------

  /** Whether an unprobed sweep over `listing` would end `k`'s receipt. */
  predicate Endangered(s: State, listing: seq<Key>, env: Env, k: Key) {
    k in listing && k in s.disk && k !in env.unreadable && s.disk[k].row.status.Running? && env.Write(k).Written?
  }

  lemma {:induction false} UnprobedSweepEffect(s: State, listing: seq<Key>, env: Env, k: Key)
    requires env.loseOld == {}
    ensures var s' := ListSweep(s, listing, false, env);
      && s'.lost == s.lost
      && (k in s'.disk <==> k in s.disk)
      && (k in s.disk ==> s'.disk[k] == if Endangered(s, listing, env, k)
                           then File(Interrupted(s.disk[k].row, env.now), env.now) else s.disk[k])
    decreases |listing|
  {
    if listing != [] {
      var j := listing[0];
      var row := ReadRow(s.disk, env, j);
      if row.None? || !row.value.status.Running? {
        UnprobedSweepEffect(s, listing[1..], env, k);
      } else {
        UnprobedSweepEffect(MarkInterrupted(s, j, row.value, env), listing[1..], env, k);
      }
    }
  }

  /** Leaving the in-flight test out is harmless for `k` exactly when no live task
      of `k` has its receipt among the readable, writable running receipts listed. */
  lemma UnprobedListKeepsOwnership(s: State, listing: seq<Key>, env: Env, k: Key)
    requires Inv(s) && Owned(s, k) && s.lost[k] == 0 && env.loseOld == {}
    ensures Owned(ListSweep(s, listing, false, env), k)
       <==> !(IsLive(s.inflight, s.tasks, k) && Endangered(s, listing, env, k))
  {
    UnprobedSweepEffect(s, listing, env, k);
    ListSweeps(s, listing, false, env, k);
    if IsLive(s.inflight, s.tasks, k) {
      assert s.tasks[s.inflight[k]].key == k;
    }
  }

  /** Where that condition fails, the listing is visible: the receipt of an
      executing task goes to interrupted and, when the task ends, to completed. */
  lemma UnprobedListLosesFinality(s: State, k: Key, env: Env, turnId: string, second: WriteOutcome, now: int)
    requires IsLive(s.inflight, s.tasks, k) && s.tasks[s.inflight[k]].key == k
    requires s.tasks[s.inflight[k]].phase.Executing? && Endangered(s, [k], env, k) && env.loseOld == {}
    requires turnId != ""
    ensures var s1 := ListSweep(s, [k], false, env);
      var s2 := FinishTask(s1, s.inflight[k], Returned(turnId), Written, second, now);
      && k in s1.disk && s1.disk[k].row.status.InterruptedUnknown?
      && k in s2.disk && s2.disk[k].row.status.Completed? && s2.lost == s.lost && s2.expired == s.expired
  {
    UnprobedSweepEffect(s, [k], env, k);
    ListSweeps(s, [k], false, env, k);
    var s1 := ListSweep(s, [k], false, env);
    assert s1.expired == s.expired by {
      assert ListSweep(MarkInterrupted(s, k, s.disk[k].row, env), [], false, env) == s1;
    }
  }

  /** Such a state is reached by one submit and the start of its task. */
  lemma ExecutingIsReachable(k: Key, hash: string, env: Env)
    requires IsClientTurnId(k.turn) && env.Write(k).Written?
    ensures var s := Run([OpSubmit(k, hash, true, true, [], env, env), OpStart(0)]);
      && IsLive(s.inflight, s.tasks, k) && s.inflight[k] == 0
      && s.tasks[0] == Task(k, hash, env.now, Executing)
      && k in s.disk && s.disk[k].row.status.Running? && s.execLog == [0]
  {
    var submit := OpSubmit(k, hash, true, true, [], env, env);
    var ops := [submit, OpStart(0)];
    assert ops[..1] == [submit] && [submit][..0] == [];
    assert Run([]) == INIT && Prune(INIT, [], true, env) == INIT;
    assert Run([submit]) == BeginTurn(INIT, k, hash, env).0;
  }
}
