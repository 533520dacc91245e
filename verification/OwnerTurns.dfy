/** Idempotent owner turns: durable receipts, live tasks, crash recovery and
    retention.

    Every transition below is one stretch of code between two suspension points
    of the event loop, so it is atomic.  What the environment decides (the clock,
    failing reads, writes and unlinks, directory order) is an argument. */
module OwnerTurns {
  import opened SafeWrite

  const MAX_RECEIPTS_PER_CALLER: nat := 1000
  const RETENTION_SECONDS: int := 30 * 24 * 60 * 60

  /** A receipt file: the caller's directory and the (injectively hashed) turn id. */
  datatype Key = Key(caller: string, turn: string)

  datatype Status = Running | Completed | Failed | InterruptedUnknown

  datatype Row = Row(
    caller: string, clientTurnId: string, requestHash: string, status: Status,
    canonicalTurnId: Option<string>, createdAt: int, updatedAt: int, errorCode: Option<string>)

  datatype File = File(row: Row, mtime: int)

  datatype Phase = Created | Executing | Done

  datatype Task = Task(key: Key, requestHash: string, createdAt: int, phase: Phase)

  /** `tasks` lists every task ever created, index = task id; a crash ends them all.
      `execLog`, `expired` and `lost` are history: the ids of the tasks whose
      executor was started, the receipts removed by retention, and the receipts
      that a failing read or write made unavailable. */
  datatype State = State(
    disk: map<Key, File>, inflight: map<Key, nat>, tasks: seq<Task>,
    execLog: seq<nat>, expired: multiset<Key>, lost: multiset<Key>)

  const INIT := State(map[], map[], [], [], multiset{}, multiset{})

  /** What the file system does during one transition. */
  datatype Env = Env(
    now: int, unreadable: set<Key>, keepOld: set<Key>, loseOld: set<Key>, stuck: set<Key>)
  {
    function Write(k: Key): WriteOutcome {
      if k in loseOld then LostOld else if k in keepOld then KeptOld else Written
    }
  }

  predicate IsLive(inflight: map<Key, nat>, tasks: seq<Task>, k: Key) {
    k in inflight && inflight[k] < |tasks| && !tasks[inflight[k]].phase.Done?
  }

  function ReadRow(disk: map<Key, File>, env: Env, k: Key): Option<Row> {
    if k in disk && k !in env.unreadable then Some(disk[k].row) else None
  }

  /** Writing a receipt; losing the old file is remembered in `lost`. */
  function WriteRow(s: State, k: Key, row: Row, outcome: WriteOutcome, now: int): State {
    s.(disk := Put(s.disk, k, File(row, now), outcome),
       lost := if outcome.LostOld? && k in s.disk then s.lost + multiset{k} else s.lost)
  }

  function Interrupted(row: Row, now: int): Row {
    row.(status := InterruptedUnknown, errorCode := Some("execution_outcome_unknown"), updatedAt := now)
  }

  /** `_mark_interrupted` on a running row. */
  function MarkInterrupted(s: State, k: Key, row: Row, env: Env): State {
    WriteRow(s, k, Interrupted(row, env.now), env.Write(k), env.now)
  }

  /** The in-flight test as prune and list make it: the row's own turn id under
      the directory name, and "dead" when no test was passed in. */
  predicate SeemsLive(s: State, k: Key, row: Row, probe: bool) {
    probe && row.clientTurnId != "" && IsLive(s.inflight, s.tasks, Key(k.caller, row.clientTurnId))
  }

  // ---- prune -------------------------------------------------------------

  /** First pass over one caller directory: end dead running receipts and collect
      the paths that must not be removed. */
  function MarkPass(s: State, retained: set<Key>, listing: seq<Key>, probe: bool, env: Env): (State, set<Key>)
    decreases |listing|
  {
    if listing == [] then (s, retained)
    else
      var k := listing[0];
      var row := ReadRow(s.disk, env, k);
      if row.None? || !row.value.status.Running? then MarkPass(s, retained, listing[1..], probe, env)
      else if SeemsLive(s, k, row.value, probe) then MarkPass(s, retained + {k}, listing[1..], probe, env)
      else
        MarkPass(MarkInterrupted(s, k, row.value, env),
                 if env.Write(k).Written? then retained else retained + {k},
                 listing[1..], probe, env)
  }

  /** Removing a receipt that could not be read counts as a loss, not as expiry. */
  function Unlink(s: State, k: Key, env: Env): State {
    if k !in s.disk || k in env.stuck then s
    else if k in env.unreadable then s.(disk := s.disk - {k}, lost := s.lost + multiset{k})
    else s.(disk := s.disk - {k}, expired := s.expired + multiset{k})
  }

  function UnlinkAll(s: State, listing: seq<Key>, env: Env): State
    decreases |listing|
  {
    if listing == [] then s else UnlinkAll(Unlink(s, listing[0], env), listing[1..], env)
  }

  function UnlinkOld(s: State, listing: seq<Key>, env: Env): State
    decreases |listing|
  {
    if listing == [] then s
    else if listing[0] in s.disk && s.disk[listing[0]].mtime < env.now - RETENTION_SECONDS
    then UnlinkOld(Unlink(s, listing[0], env), listing[1..], env)
    else UnlinkOld(s, listing[1..], env)
  }

  function Without(listing: seq<Key>, retained: set<Key>): (r: seq<Key>)
    ensures forall k :: k in r ==> k in listing && k !in retained
    decreases |listing|
  {
    if listing == [] then []
    else if listing[0] in retained then Without(listing[1..], retained)
    else [listing[0]] + Without(listing[1..], retained)
  }

  function Cap(n: nat): nat {
    if n < MAX_RECEIPTS_PER_CALLER then n else MAX_RECEIPTS_PER_CALLER
  }

  /** `listing` is the caller's directory, newest modification first. */
  function PruneDir(s: State, listing: seq<Key>, probe: bool, env: Env): State {
    var (marked, retained) := MarkPass(s, {}, listing, probe, env);
    var candidates := Without(listing, retained);
    var capped := UnlinkAll(marked, candidates[Cap(|candidates|)..], env);
    UnlinkOld(capped, candidates[..Cap(|candidates|)], env)
  }

  function Prune(s: State, listings: seq<seq<Key>>, probe: bool, env: Env): State
    decreases |listings|
  {
    if listings == [] then s else Prune(PruneDir(s, listings[0], probe, env), listings[1..], probe, env)
  }

  // ---- submit, execute, read ---------------------------------------------

  datatype Reply =
    | InvalidRequest
    | Conflict(row: Row)
    | CompletedReplay
    | CompletedResultExpired(row: Row)
    | InFlight(row: Row)
    | OutcomeUnknown(recovered: Option<Row>)
    | Stored(row: Row)
    | Accepted(task: nat)
    | WriteError

  predicate IsOpaqueChar(c: char) {
    'A' <= c <= 'Z' || 'a' <= c <= 'z' || '0' <= c <= '9' || c in {'.', '_', ':', '-'}
  }

  predicate IsClientTurnId(id: string) {
    1 <= |id| <= 128 && forall i :: 0 <= i < |id| ==> IsOpaqueChar(id[i])
  }

  /** `recover_if_interrupted`; None as state means that its write raised. */
  function Recover(s: State, k: Key, live: bool, env: Env): (State, Option<Row>, bool) {
    var row := ReadRow(s.disk, env, k);
    if row.None? || !row.value.status.Running? || live then (s, row, true)
    else
      var marked := MarkInterrupted(s, k, row.value, env);
      if env.Write(k).Written? then (marked, Some(Interrupted(row.value, env.now)), true)
      else (marked, None, false)
  }

  /** The branch of a submit that finds a receipt. */
  function Answer(s: State, k: Key, hash: string, row: Row, resultRetained: bool, env: Env): (State, Reply) {
    if row.requestHash != hash then (s, Conflict(row))
    else match row.status
      case Completed => (s, if resultRetained then CompletedReplay else CompletedResultExpired(row))
      case Running =>
        if IsLive(s.inflight, s.tasks, k) then (s, InFlight(row))
        else
          var (recovered, after, ok) := Recover(s, k, false, env);
          (recovered, if ok then OutcomeUnknown(after) else WriteError)
      case _ => (s, Stored(row))
  }

  /** The branch that finds none: write the running receipt, create the task. */
  function BeginTurn(s: State, k: Key, hash: string, env: Env): (State, Reply) {
    var row := Row(k.caller, k.turn, hash, Running, None, env.now, env.now, None);
    var overwritten := k in s.disk && env.Write(k).Written?;
    var w := WriteRow(s, k, row, env.Write(k), env.now);
    if !env.Write(k).Written? then (w, WriteError)
    else
      (w.(tasks := s.tasks + [Task(k, hash, env.now, Created)],
          inflight := s.inflight[k := |s.tasks|],
          lost := if overwritten then w.lost + multiset{k} else w.lost),
       Accepted(|s.tasks|))
  }

  /** One submit, from taking the per-key lock to creating the task. */
  function Submit(s: State, k: Key, hash: string, messageOk: bool, resultRetained: bool,
                  listings: seq<seq<Key>>, pruneEnv: Env, env: Env): (State, Reply)
  {
    if !IsClientTurnId(k.turn) || !messageOk then (s, InvalidRequest)
    else
      var p := Prune(s, listings, true, pruneEnv);
      var row := ReadRow(p.disk, env, k);
      if row.Some? then Answer(p, k, hash, row.value, resultRetained, env)
      else BeginTurn(p, k, hash, env)
  }

  /** How the awaited executor ends. */
  datatype Execution = Returned(turnId: string) | Raised(code: string) | Cancelled

  /** The task's first step: the executor starts. */
  function StartTask(s: State, t: nat): State {
    if t < |s.tasks| && s.tasks[t].phase.Created?
    then s.(tasks := s.tasks[t := s.tasks[t].(phase := Executing)], execLog := s.execLog + [t])
    else s
  }

  function FinalRow(task: Task, status: Status, turnId: Option<string>, code: Option<string>, now: int): Row {
    Row(task.key.caller, task.key.turn, task.requestHash, status, turnId, task.createdAt, now, code)
  }

  /** The task's last step.  A failing write of the completed receipt is itself an
      exception, so a failed receipt is tried next; cancellation writes nothing. */
  function FinishTask(s: State, t: nat, e: Execution, first: WriteOutcome, second: WriteOutcome, now: int): State {
    if t >= |s.tasks| || s.tasks[t].phase.Done? || (s.tasks[t].phase.Created? && !e.Cancelled?) then s
    else
      var task := s.tasks[t];
      var ended := s.(tasks := s.tasks[t := task.(phase := Done)]);
      match e
      case Cancelled => ended
      case Raised(code) => WriteRow(ended, task.key, FinalRow(task, Failed, None, Some(code), now), second, now)
      case Returned(turnId) =>
        if turnId == "" then
          WriteRow(ended, task.key, FinalRow(task, Failed, None, Some("RuntimeError"), now), second, now)
        else
          var w := WriteRow(ended, task.key, FinalRow(task, Completed, Some(turnId), None, now), first, now);
          if first.Written? then w
          else WriteRow(w, task.key, FinalRow(task, Failed, None, Some("OSError"), now), second, now)
  }

  /** The done callback: drop the in-flight entry if it is still this task's. */
  function DropTask(s: State, t: nat): State {
    if t < |s.tasks| && s.tasks[t].phase.Done? && s.tasks[t].key in s.inflight && s.inflight[s.tasks[t].key] == t
    then s.(inflight := s.inflight - {s.tasks[t].key})
    else s
  }

  /** The process dies: files stay, tasks and the in-flight table do not. */
  function Crash(s: State): State {
    s.(inflight := map[], tasks := seq(|s.tasks|, i requires 0 <= i < |s.tasks| => s.tasks[i].(phase := Done)))
  }

  function ReadReceipt(s: State, k: Key, env: Env): (State, Option<Row>, bool) {
    Recover(s, k, IsLive(s.inflight, s.tasks, k), env)
  }

  /** What listing does to the store: running receipts that seem dead are ended. */
  function ListSweep(s: State, listing: seq<Key>, probe: bool, env: Env): State
    decreases |listing|
  {
    if listing == [] then s
    else
      var k := listing[0];
      var row := ReadRow(s.disk, env, k);
      if row.None? || !row.value.status.Running? || SeemsLive(s, k, row.value, probe)
      then ListSweep(s, listing[1..], probe, env)
      else ListSweep(MarkInterrupted(s, k, row.value, env), listing[1..], probe, env)
  }

  // ---- runs --------------------------------------------------------------

  datatype Op =
    | OpSubmit(key: Key, hash: string, messageOk: bool, resultRetained: bool,
               listings: seq<seq<Key>>, pruneEnv: Env, env: Env)
    | OpStart(t: nat)
    | OpFinish(t: nat, e: Execution, first: WriteOutcome, second: WriteOutcome, now: int)
    | OpDrop(t: nat)
    | OpCrash
    | OpRead(key: Key, env: Env)
    | OpList(listing: seq<Key>, probe: bool, env: Env)
    | OpPrune(listings: seq<seq<Key>>, probe: bool, env: Env)

  function Step(s: State, op: Op): State {
    match op
    case OpSubmit(k, h, m, r, l, pe, e) => Submit(s, k, h, m, r, l, pe, e).0
    case OpStart(t) => StartTask(s, t)
    case OpFinish(t, e, f, g, now) => FinishTask(s, t, e, f, g, now)
    case OpDrop(t) => DropTask(s, t)
    case OpCrash => Crash(s)
    case OpRead(k, e) => ReadReceipt(s, k, e).0
    case OpList(l, p, e) => ListSweep(s, l, p, e)
    case OpPrune(l, p, e) => Prune(s, l, p, e)
  }

  function Run(ops: seq<Op>): State
    decreases |ops|
  {
    if ops == [] then INIT else Step(Run(ops[..|ops| - 1]), ops[|ops| - 1])
  }

  /** The transition passes the real in-flight test wherever it passes one. */
  predicate Probed(op: Op) {
    (op.OpList? ==> op.probe) && (op.OpPrune? ==> op.probe)
  }

  predicate AllProbed(ops: seq<Op>) {
    forall i :: 0 <= i < |ops| ==> Probed(ops[i])
  }
}
