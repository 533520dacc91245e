/** The service as it runs: the in-flight table and the receipt store are updated
    in place, step by step; each method is proved against the transition it stands for. */
module OwnerTurnService {
  import opened SafeWrite
  import opened OwnerTurns
  import Outcomes = OwnerTurnOutcomes
  import opened OwnerTurnListing

  const NO_FILTER := Filter(None, "", None, None)

  function CountStatus(es: seq<Entry>, status: Status): nat
    decreases |es|
  {
    if es == [] then 0
    else CountStatus(es[..|es| - 1], status) + (if es[|es| - 1].row.status == status then 1 else 0)
  }

  ghost function Ahead(s: State, listing: seq<Key>, cursor: Option<SortKey>): set<SortKey> {
    set k | k in listing && k in s.disk && BeyondCursor(cursor, EntryOf(k, s.disk[k].row).key) :: EntryOf(k, s.disk[k].row).key
  }

  /** Listing never moves a receipt in the sort order and never adds one. */
  lemma {:induction false} ListPassAhead(s: State, acc: seq<Entry>, listing: seq<Key>, whole: seq<Key>, filter: Filter,
                                         cursor: Option<SortKey>, probe: bool, env: Env)
    requires forall k :: k in listing ==> k in whole
    ensures var (s', rows) := ListPass(s, acc, listing, filter, cursor, probe, env);
      && (forall c :: Ahead(s', whole, c) <= Ahead(s, whole, c))
      && (forall x :: x in rows && x !in acc ==> x.key in Ahead(s, whole, cursor))
    decreases |listing|
  {
    if listing != [] {
      var k := listing[0];
      var row := ReadRow(s.disk, env, k);
      if (filter.caller != "" && k.caller != filter.caller) || row.None? {
        ListPassAhead(s, acc, listing[1..], whole, filter, cursor, probe, env);
      } else if row.value.status.Running? && !SeemsLive(s, k, row.value, probe) {
        var s1 := MarkInterrupted(s, k, row.value, env);
        var row1 := Interrupted(row.value, env.now);
        var acc1 := if env.Write(k).Written? then Collect(acc, k, row1, filter, cursor) else acc;
        MarkAhead(s, k, env, whole);
        assert EntryOf(k, row1).key == EntryOf(k, row.value).key;
        ListPassAhead(s1, acc1, listing[1..], whole, filter, cursor, probe, env);
      } else {
        ListPassAhead(s, Collect(acc, k, row.value, filter, cursor), listing[1..], whole, filter, cursor, probe, env);
      }
    }
  }

  lemma MarkAhead(s: State, k: Key, env: Env, whole: seq<Key>)
    requires k in s.disk
    ensures forall c :: Ahead(MarkInterrupted(s, k, s.disk[k].row, env), whole, c) <= Ahead(s, whole, c)
  {
    var s1 := MarkInterrupted(s, k, s.disk[k].row, env);
    forall c, x | x in Ahead(s1, whole, c) ensures x in Ahead(s, whole, c) {
      var j :| j in whole && j in s1.disk && BeyondCursor(c, EntryOf(j, s1.disk[j].row).key) && x == EntryOf(j, s1.disk[j].row).key;
      assert j in s.disk && EntryOf(j, s.disk[j].row).key == x;
    }
  }

  lemma SameElements(sorted: seq<Entry>, rows: seq<Entry>, e: Entry)
    requires multiset(sorted) == multiset(rows) && e in sorted
    ensures e in rows
  {
    assert e in multiset(sorted);
  }

  lemma CutNext(rows: seq<Entry>, limit: nat)
    requires 1 <= limit && Cut(SortEntries(rows), limit).next.Some?
    ensures exists e :: e in rows && e.key == Cut(SortEntries(rows), limit).next.value
  {
    var sorted := SortEntries(rows);
    SameElements(sorted, rows, sorted[limit - 1]);
  }

  lemma AheadShrinks(s: State, s': State, listing: seq<Key>, cursor: Option<SortKey>, next: SortKey)
    requires forall c :: Ahead(s', listing, c) <= Ahead(s, listing, c)
    requires next in Ahead(s, listing, cursor)
    ensures Ahead(s', listing, Some(next)) < Ahead(s, listing, cursor)
  {
    KeyOrder(next, next, next);
    assert next !in Ahead(s', listing, Some(next));
    forall x | x in Ahead(s', listing, Some(next)) ensures x in Ahead(s', listing, cursor) {
      if cursor.Some? { KeyOrder(cursor.value, next, x); }
    }
  }

  /** The next cursor leaves strictly fewer receipts ahead. */
  lemma NextCursorAdvances(s: State, listing: seq<Key>, filter: Filter, cursor: Option<SortKey>, limit: int, probe: bool, env: Env)
    ensures var (s', page) := ListReceipts(s, listing, filter, cursor, limit, probe, env);
      page.Page? && page.next.Some? ==> Ahead(s', listing, page.next) < Ahead(s, listing, cursor)
  {
    var (s', page) := ListReceipts(s, listing, filter, cursor, limit, probe, env);
    if page.Page? && page.next.Some? {
      ListPassAhead(s, [], listing, listing, filter, cursor, probe, env);
      CutNext(ListPass(s, [], listing, filter, cursor, probe, env).1, limit);
      AheadShrinks(s, s', listing, cursor, page.next.value);
    }
  }

  predicate AllStatuses(counts: map<Status, nat>) {
    counts.Keys == {Running, Completed, Failed, InterruptedUnknown}
  }

  ghost predicate Counts(counts: map<Status, nat>, es: seq<Entry>) {
    AllStatuses(counts) && forall st :: st in counts ==> counts[st] == CountStatus(es, st)
  }

  lemma TallyCounts(before: map<Status, nat>, done: seq<Entry>, entries: seq<Entry>, after: map<Status, nat>)
    requires Counts(before, done) && AllStatuses(after)
    requires forall st :: st in after ==> after[st] == before[st] + CountStatus(entries, st)
    ensures Counts(after, done + entries)
  {
    forall st | st in after ensures after[st] == CountStatus(done + entries, st) {
      CountAppend(done, entries, st);
    }
  }

  lemma {:induction false} CountAppend(a: seq<Entry>, b: seq<Entry>, status: Status)
    ensures CountStatus(a + b, status) == CountStatus(a, status) + CountStatus(b, status)
    decreases |b|
  {
    if b == [] {
      assert a + b == a;
    } else {
      assert (a + b)[..|a + b| - 1] == a + b[..|b| - 1];
      CountAppend(a, b[..|b| - 1], status);
    }
  }

  /** Bookkeeping of a summary started in store `s`: `done` receipts are counted. */
  datatype Walk = Walk(s: State, stable: bool, all: seq<Entry>, done: nat)
  {
    ghost predicate At(now: State, cursor: Option<SortKey>) {
      stable ==> now == s && done <= |all| && cursor == CursorAt(all, done)
    }

    ghost predicate Served(now: State, data: Page) {
      stable ==> now == s && done <= |all| && data == Cut(all[done..], MAX_LIMIT)
    }

    ghost predicate Counted(counts: map<Status, nat>) {
      stable ==> done <= |all| && Counts(counts, all[..done])
    }

    lemma Advance(now: State, data: Page, before: map<Status, nat>, after: map<Status, nat>)
      requires data.Page? && Served(now, data) && Counted(before) && AllStatuses(before) && AllStatuses(after)
      requires forall st :: st in after ==> after[st] == before[st] + CountStatus(data.entries, st)
      ensures var w := this.(done := done + |data.entries|);
        && w.Counted(after)
        && (data.next.Some? ==> w.At(now, data.next))
        && (data.next.None? && stable ==> w.done == |all| && all[..w.done] == all)
    {
      if stable {
        CutStep(all, done, MAX_LIMIT);
        TallyCounts(before, all[..done], data.entries, after);
      }
    }
  }

  method Tally(entries: seq<Entry>, before: map<Status, nat>) returns (counts: map<Status, nat>)
    requires AllStatuses(before)
    ensures AllStatuses(counts)
    ensures forall st :: st in counts ==> counts[st] == before[st] + CountStatus(entries, st)
  {
    counts := before;
    for i := 0 to |entries|
      invariant AllStatuses(counts)
      invariant forall st :: st in counts ==> counts[st] == before[st] + CountStatus(entries[..i], st)
    {
      assert entries[..i + 1][..i] == entries[..i];
      assert entries[i].row.status in counts.Keys by {
        match entries[i].row.status
        case Running => case Completed => case Failed => case InterruptedUnknown =>
      }
      counts := counts[entries[i].row.status := counts[entries[i].row.status] + 1];
    }
    assert entries[..|entries|] == entries;
  }

  class Service {
    var disk: map<Key, File>
    var inflight: map<Key, nat>
    var tasks: seq<Task>
    ghost var execLog: seq<nat>
    ghost var expired: multiset<Key>
    ghost var lost: multiset<Key>

    ghost function Abs(): State
      reads this
    {
      State(disk, inflight, tasks, execLog, expired, lost)
    }

    constructor ()
      ensures Abs() == INIT
    {
      disk, inflight, tasks := map[], map[], [];
      execLog, expired, lost := [], multiset{}, multiset{};
    }

    method Write(k: Key, row: Row, outcome: WriteOutcome, now: int)
      modifies this
      ensures Abs() == WriteRow(old(Abs()), k, row, outcome, now)
    {
      if outcome.LostOld? && k in disk { lost := lost + multiset{k}; }
      disk := Put(disk, k, File(row, now), outcome);
    }

    method Remove(k: Key, env: Env)
      modifies this
      ensures Abs() == Unlink(old(Abs()), k, env)
    {
      if k in disk && k !in env.stuck {
        if k in env.unreadable { lost := lost + multiset{k}; } else { expired := expired + multiset{k}; }
        disk := disk - {k};
      }
    }

    /** One caller directory, newest modification first. */
    method PruneDirectory(listing: seq<Key>, probe: bool, env: Env)
      modifies this
      ensures Abs() == PruneDir(old(Abs()), listing, probe, env)
    {
      var retained := {};
      assert listing[0..] == listing;
      for i := 0 to |listing|
        invariant MarkPass(Abs(), retained, listing[i..], probe, env) == MarkPass(old(Abs()), {}, listing, probe, env)
      {
        var k := listing[i];
        assert listing[i..][1..] == listing[i + 1..];
        var row := ReadRow(disk, env, k);
        if row.Some? && row.value.status.Running? {
          var live := probe && row.value.clientTurnId != "" && IsLive(inflight, tasks, Key(k.caller, row.value.clientTurnId));
          if live {
            retained := retained + {k};
          } else {
            Write(k, Interrupted(row.value, env.now), env.Write(k), env.now);
            if !env.Write(k).Written? { retained := retained + {k}; }
          }
        }
      }
      var candidates := Without(listing, retained);
      var n := Cap(|candidates|);
      ghost var marked := Abs();
      var beyond, kept := candidates[n..], candidates[..n];
      assert beyond[0..] == beyond && kept[0..] == kept;
      for i := 0 to |beyond|
        invariant UnlinkAll(Abs(), beyond[i..], env) == UnlinkAll(marked, beyond, env)
      {
        assert beyond[i..][1..] == beyond[i + 1..];
        Remove(beyond[i], env);
      }
      ghost var capped := Abs();
      for i := 0 to |kept|
        invariant UnlinkOld(Abs(), kept[i..], env) == UnlinkOld(capped, kept, env)
      {
        assert kept[i..][1..] == kept[i + 1..];
        if kept[i] in disk && disk[kept[i]].mtime < env.now - RETENTION_SECONDS { Remove(kept[i], env); }
      }
    }

    method PruneAll(listings: seq<seq<Key>>, probe: bool, env: Env)
      modifies this
      ensures Abs() == Prune(old(Abs()), listings, probe, env)
    {
      assert listings[0..] == listings;
      for i := 0 to |listings|
        invariant Prune(Abs(), listings[i..], probe, env) == Prune(old(Abs()), listings, probe, env)
      {
        assert listings[i..][1..] == listings[i + 1..];
        PruneDirectory(listings[i], probe, env);
      }
    }

    /** `recover_if_interrupted`; `ok` is false when the write raised. */
    method RecoverIfInterrupted(k: Key, live: bool, env: Env) returns (row: Option<Row>, ok: bool)
      modifies this
      ensures (Abs(), row, ok) == Recover(old(Abs()), k, live, env)
    {
      row, ok := ReadRow(disk, env, k), true;
      if row.Some? && row.value.status.Running? && !live {
        var updated := Interrupted(row.value, env.now);
        Write(k, updated, env.Write(k), env.now);
        ok := env.Write(k).Written?;
        row := if ok then Some(updated) else None;
      }
    }

    method ExecuteIdempotentOwnerTurn(k: Key, hash: string, messageOk: bool, resultRetained: bool,
                                      listings: seq<seq<Key>>, pruneEnv: Env, env: Env) returns (reply: Reply)
      modifies this
      ensures (Abs(), reply) == Submit(old(Abs()), k, hash, messageOk, resultRetained, listings, pruneEnv, env)
    {
      if !IsClientTurnId(k.turn) || !messageOk { return InvalidRequest; }
      PruneAll(listings, true, pruneEnv);
      var row := ReadRow(disk, env, k);
      if row.Some? {
        if row.value.requestHash != hash { return Conflict(row.value); }
        match row.value.status {
          case Completed => return if resultRetained then CompletedReplay else CompletedResultExpired(row.value);
          case Running =>
            if IsLive(inflight, tasks, k) { return InFlight(row.value); }
            var after, ok := RecoverIfInterrupted(k, false, env);
            return if ok then OutcomeUnknown(after) else WriteError;
          case _ => return Stored(row.value);
        }
      }
      if k in disk && env.Write(k).Written? { lost := lost + multiset{k}; }
      Write(k, Row(k.caller, k.turn, hash, Running, None, env.now, env.now, None), env.Write(k), env.now);
      if !env.Write(k).Written? { return WriteError; }
      reply := Accepted(|tasks|);
      inflight := inflight[k := |tasks|];
      tasks := tasks + [Task(k, hash, env.now, Created)];
    }

    method Start(t: nat)
      modifies this
      ensures Abs() == StartTask(old(Abs()), t)
    {
      if t < |tasks| && tasks[t].phase.Created? {
        tasks := tasks[t := tasks[t].(phase := Executing)];
        execLog := execLog + [t];
      }
    }

    /** `_execute_and_record` after the awaited executor. */
    method Record(t: nat, e: Execution, first: WriteOutcome, second: WriteOutcome, now: int)
      modifies this
      ensures Abs() == FinishTask(old(Abs()), t, e, first, second, now)
      ensures t < |old(tasks)| && old(tasks)[t].phase.Executing? ==> forall v :: Outcomes.IsVerdict(e, first, v) ==>
        Outcomes.Leaves(old(Abs()), t, e, first, second, now, v, Abs())
    {
      ghost var s := Abs();
      if t < |tasks| && tasks[t].phase.Executing? {
        forall v | Outcomes.IsVerdict(e, first, v)
          ensures Outcomes.Leaves(s, t, e, first, second, now, v, FinishTask(s, t, e, first, second, now))
        {
          Outcomes.EndingLeaves(s, t, e, first, second, now, v);
        }
      }
      if t >= |tasks| || tasks[t].phase.Done? || (tasks[t].phase.Created? && !e.Cancelled?) { return; }
      var task := tasks[t];
      tasks := tasks[t := task.(phase := Done)];
      if e.Cancelled? { return; }
      var code := "RuntimeError";
      if e.Raised? {
        code := e.code;
      } else if e.turnId != "" {
        Write(task.key, FinalRow(task, Completed, Some(e.turnId), None, now), first, now);
        if first.Written? { return; }
        code := "OSError";
      }
      Write(task.key, FinalRow(task, Failed, None, Some(code), now), second, now);
    }

    method Forget(t: nat)
      modifies this
      ensures Abs() == DropTask(old(Abs()), t)
    {
      if t < |tasks| && tasks[t].phase.Done? && tasks[t].key in inflight && inflight[tasks[t].key] == t {
        inflight := inflight - {tasks[t].key};
      }
    }

    method ReadOwnerTurnReceipt(k: Key, env: Env) returns (row: Option<Row>, ok: bool)
      modifies this
      ensures (Abs(), row, ok) == ReadReceipt(old(Abs()), k, env)
    {
      row, ok := RecoverIfInterrupted(k, IsLive(inflight, tasks, k), env);
    }

    method List(listing: seq<Key>, filter: Filter, cursor: Option<SortKey>, limit: int, probe: bool, env: Env)
      returns (page: Page)
      modifies this
      ensures (Abs(), page) == ListReceipts(old(Abs()), listing, filter, cursor, limit, probe, env)
    {
      if !(1 <= limit <= MAX_LIMIT) { return InvalidLimit; }
      if cursor.Some? && !CursorOk(cursor.value) { return InvalidCursor; }
      var rows := [];
      assert listing[0..] == listing;
      for i := 0 to |listing|
        invariant ListPass(Abs(), rows, listing[i..], filter, cursor, probe, env)
               == ListPass(old(Abs()), [], listing, filter, cursor, probe, env)
      {
        var k := listing[i];
        assert listing[i..][1..] == listing[i + 1..];
        if filter.caller != "" && k.caller != filter.caller { continue; }
        var row := ReadRow(disk, env, k);
        if row.None? { continue; }
        var current := row.value;
        if current.status.Running? {
          var live := probe && current.clientTurnId != "" && IsLive(inflight, tasks, Key(k.caller, current.clientTurnId));
          if !live {
            current := Interrupted(current, env.now);
            Write(k, current, env.Write(k), env.now);
            if !env.Write(k).Written? { continue; }
          }
        }
        rows := Collect(rows, k, current, filter, cursor);
      }
      page := Cut(SortEntries(rows), limit);
    }

    /** A page of the unfiltered listing, in the course of a summary. */
    method FetchPage(listing: seq<Key>, cursor: Option<SortKey>, probe: bool, env: Env, ghost w: Walk)
      returns (data: Page)
      requires w.all == Everything(w.s, listing, NO_FILTER, probe, env)
      requires w.stable ==> Stable(w.s, listing, probe, env)
      modifies this
      ensures data.Page? && data.next.Some? ==> Ahead(Abs(), listing, data.next) < Ahead(old(Abs()), listing, cursor)
      ensures w.At(old(Abs()), cursor) ==> w.Served(Abs(), data)
    {
      NextCursorAdvances(Abs(), listing, NO_FILTER, cursor, MAX_LIMIT, probe, env);
      if w.stable && w.At(Abs(), cursor) { ServedPage(w.s, listing, probe, env, w.done); }
      data := List(listing, NO_FILTER, cursor, MAX_LIMIT, probe, env);
    }

    /** `summary`: walk every page, count every row.  It ends on every store, and on
        a stable one it counts each receipt once.  `ok` is false when a cursor was
        refused. */
    method Summary(listing: seq<Key>, probe: bool, env: Env) returns (ok: bool, total: nat, counts: map<Status, nat>)
      modifies this
      ensures AllStatuses(counts)
      ensures Stable(old(Abs()), listing, probe, env) ==>
        var all := Everything(old(Abs()), listing, NO_FILTER, probe, env);
        ok && Abs() == old(Abs()) && total == |all| && Counts(counts, all)
    {
      ok, total, counts := true, 0, map[Running := 0, Completed := 0, Failed := 0, InterruptedUnknown := 0];
      ghost var start := Walk(Abs(), Stable(Abs(), listing, probe, env), Everything(Abs(), listing, NO_FILTER, probe, env), 0);
      ghost var w := start;
      var data := FetchPage(listing, None, probe, env, w);
      while data.Page?
        invariant AllStatuses(counts) && ok && w == start.(done := total)
        invariant w.Served(Abs(), data) && w.Counted(counts)
        decreases if data.Page? && data.next.Some? then Ahead(Abs(), listing, data.next) else {}, data.Page? && data.next.Some?, data.Page?
      {
        ghost var before := counts;
        counts := Tally(data.entries, counts);
        w.Advance(Abs(), data, before, counts);
        total := total + |data.entries|;
        w := w.(done := total);
        if data.next.None? { return; }
        data := FetchPage(listing, data.next, probe, env, w);
      }
      ok := false;
    }
  }

  lemma CutStep(all: seq<Entry>, done: nat, limit: nat)
    requires done <= |all| && 1 <= limit
    ensures var page := Cut(all[done..], limit); var n := done + |page.entries|;
      && n <= |all| && all[..done] + page.entries == all[..n]
      && (page.next.None? ==> n == |all|)
      && (page.next.Some? ==> n > 0 && page.next == CursorAt(all, n))
  {
  }

  lemma ServedPage(s: State, listing: seq<Key>, probe: bool, env: Env, i: nat)
    requires Stable(s, listing, probe, env) && i <= |Everything(s, listing, NO_FILTER, probe, env)|
    ensures var all := Everything(s, listing, NO_FILTER, probe, env);
      ListReceipts(s, listing, NO_FILTER, CursorAt(all, i), MAX_LIMIT, probe, env) == (s, Cut(all[i..], MAX_LIMIT))
  {
    EverythingIsExact(s, listing, NO_FILTER, probe, env);
    PageAfter(s, listing, NO_FILTER, probe, env, i);
  }
}
