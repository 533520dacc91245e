/** A polling client beside the queue: it asks for what comes after the last number
    it received.  Starting from an empty store, it sees every message that survives
    acknowledgement and pruning once and in order. */
module MobileClient {
  import opened SafeWrite
  import opened MobileQueue

  /** `sent` logs what was sent; `clock` is the time of the latest operation. */
  datatype World = World(store: Store, clock: int, cursor: Option<int>, received: seq<Item>, sent: seq<Item>)

  const START := World(Store(NoFile, None, []), 0, None, [], [])

  /** A poll answer may get lost on its way; then the client's cursor stays. */
  datatype Op =
    | Send(body: string, env: Env)
    | Poll(limit: int, delivered: bool, env: Env)
    | Ack(upTo: int, env: Env)

  function Step(w: World, op: Op): World {
    match op
    case Send(body, env) =>
      var (store, item) := MobileQueue.Send(w.store, body, env);
      w.(store := store, clock := env.now, sent := w.sent + [item])
    case Ack(upTo, env) => w.(store := MobileQueue.Ack(w.store, upTo, env).0, clock := env.now)
    case Poll(limit, delivered, env) =>
      var (store, batch) := MobileQueue.Poll(w.store, w.cursor, limit, env);
      if delivered && batch != []
      then w.(store := store, clock := env.now, cursor := Some(Num(batch[|batch| - 1])), received := w.received + batch)
      else w.(store := store, clock := env.now)
  }

  function Run(ops: seq<Op>): World
    decreases |ops|
  {
    if ops == [] then START else Step(Run(ops[..|ops| - 1]), ops[|ops| - 1])
  }

  /** The sequence file can be written and the clock does not run backwards.  Writes
      of the queue file may fail in any way. */
  predicate Fair(op: Op, clock: int) {
    op.env.loadSeq.Written? && op.env.sendSeq.Written? && op.env.now >= clock
  }

  predicate AllFair(ops: seq<Op>)
    decreases |ops|
  {
    ops != [] ==> Fair(ops[|ops| - 1], Run(ops[..|ops| - 1]).clock) && AllFair(ops[..|ops| - 1])
  }

  // ---- files written by this code ----------------------------------------

  function Content(q: QueueFile): seq<Item> {
    ItemsOf(Entries(q))
  }

  predicate WellFormed(items: seq<Item>) {
    Increasing(items) && (forall x :: x in items ==> ValidSeq(x)) && |items| <= QUEUE_MAX_ITEMS
  }

  ghost predicate FileOk(q: QueueFile) {
    q.NoFile? || (q.Stored? && q.entries == EntriesOf(Content(q)) && WellFormed(Content(q)))
  }

  lemma {:induction false} ItemsOfEntries(items: seq<Item>)
    ensures ItemsOf(EntriesOf(items)) == items
    decreases |items|
  {
    if items != [] {
      assert EntriesOf(items)[1..] == EntriesOf(items[1..]);
      ItemsOfEntries(items[1..]);
      assert items == [items[0]] + items[1..];
    }
  }

  lemma WriteOk(q: QueueFile, items: seq<Item>, outcome: WriteOutcome)
    requires FileOk(q) && WellFormed(items)
    ensures FileOk(WriteQueue(q, items, outcome))
    ensures Content(WriteQueue(q, items, outcome)) ==
      match outcome case Written => items case KeptOld => Content(q) case LostOld => []
  {
    ItemsOfEntries(items);
  }

  lemma {:induction false} RenumberIdentity(items: seq<Item>, next: int, seen: set<int>)
    requires Increasing(items) && forall i :: 0 <= i < |items| ==> ValidSeq(items[i])
    requires forall i, n :: 0 <= i < |items| && n in seen ==> n < Num(items[i])
    ensures Renumber(items, next, seen) == (items, next)
    decreases |items|
  {
    if items != [] {
      var head, tail := items[0], items[1..];
      assert forall i :: 0 <= i < |tail| ==> tail[i] == items[i + 1];
      RenumberIdentity(tail, next, seen + {Num(head)});
      assert items == [head] + tail;
    }
  }

  lemma {:induction false} SortIdentity(items: seq<Item>)
    requires Increasing(items)
    ensures SortBySeq(items) == items
    decreases |items|
  {
    if items != [] {
      assert Increasing(items[1..]);
      SortIdentity(items[1..]);
      assert items == [items[0]] + items[1..];
    }
  }

  lemma EnsureIdentity(items: seq<Item>, seqFile: Option<int>, outcome: WriteOutcome)
    requires WellFormed(items)
    ensures var e := EnsureSequences(items, seqFile, outcome); e.queue == items && e.next == e.end
  {
    assert forall i :: 0 <= i < |items| ==> items[i] in items;
    RenumberIdentity(items, NextSeq(seqFile, items), {});
    SortIdentity(items);
  }

  lemma LoadShape(s: Store, env: Env)
    requires FileOk(s.queueFile)
    ensures var (after, queue) := Load(s, env);
      && queue == Prune(Content(s.queueFile), env.now) && after.issued == s.issued
      && (after.queueFile == s.queueFile || after.queueFile == WriteQueue(s.queueFile, queue, env.loadQueue))
  {
    if s.queueFile.Stored? {
      EnsureIdentity(Content(s.queueFile), s.seqFile, env.loadSeq);
      assert s.issued + [] == s.issued;
    }
  }

  /** The queue is what the file keeps of its items; the file gained none. */
  ghost predicate Pruned(s: Store, now: int, after: Store, queue: seq<Item>) {
    && WellFormed(queue) && FileOk(after.queueFile) && after.issued == s.issued
    && (forall x :: x in Content(after.queueFile) ==> x in Content(s.queueFile))
    && (forall x :: x in queue <==> x in Content(s.queueFile) && Retained(x, now))
  }

  lemma PruneOfFile(items: seq<Item>, now: int)
    requires WellFormed(items)
    ensures WellFormed(Prune(items, now)) && forall x :: x in Prune(items, now) <==> x in items && Retained(x, now)
  {
    PruneExact(items, now);
    PruneIncreasing(items, now);
  }

  /** Loading a file this code wrote repairs nothing; it only prunes. */
  lemma LoadPrunes(s: Store, env: Env)
    requires FileOk(s.queueFile)
    ensures Pruned(s, env.now, Load(s, env).0, Load(s, env).1)
  {
    LoadShape(s, env);
    PruneOfFile(Content(s.queueFile), env.now);
    WriteOk(s.queueFile, Prune(Content(s.queueFile), env.now), env.loadQueue);
  }

  lemma {:induction false} AfterExact(queue: seq<Item>, cursor: int)
    ensures forall x :: x in After(queue, cursor) <==> x in queue && Num(x) > cursor
    ensures |After(queue, cursor)| <= |queue|
    decreases |queue|
  {
    if queue != [] { AfterExact(queue[1..], cursor); }
  }

  lemma {:induction false} AfterIncreasing(queue: seq<Item>, cursor: int)
    requires Increasing(queue)
    ensures Increasing(After(queue, cursor))
    decreases |queue|
  {
    if queue != [] {
      var head, tail := queue[0], queue[1..];
      assert Increasing(tail);
      AfterIncreasing(tail, cursor);
      AfterExact(tail, cursor);
      var r := After(tail, cursor);
      forall j | 0 <= j < |r| ensures Num(head) < Num(r[j]) {
        assert r[j] in r;
        assert r[j] in tail;
      }
    }
  }

  // ---- the invariant -----------------------------------------------------

  predicate Behind(cursor: Option<int>, x: Item) {
    cursor.Some? && Num(x) <= cursor.value
  }

  ghost predicate StoreOk(w: World) {
    && Numbered(w.store) && FileOk(w.store.queueFile)
    && (forall x :: x in Content(w.store.queueFile) ==> Num(x) < StoredNext(w.store.seqFile) && x in w.sent)
  }

  ghost predicate ClientOk(w: World) {
    && Increasing(w.received) && (forall x :: x in w.received ==> x in w.sent)
    && w.cursor == (if w.received == [] then None else Some(Num(w.received[|w.received| - 1])))
    && (w.cursor.Some? ==> w.cursor.value < StoredNext(w.store.seqFile))
  }

  /** Nothing is skipped: what lies behind the cursor was received, or has expired. */
  ghost predicate NoneSkipped(w: World) {
    forall x :: x in Content(w.store.queueFile) && Behind(w.cursor, x) ==> x in w.received || !Retained(x, w.clock)
  }

  ghost predicate Inv(w: World) {
    StoreOk(w) && ClientOk(w) && NoneSkipped(w)
  }

  lemma SeqFileGrows(s: Store, env: Env)
    requires Numbered(s) && env.loadSeq.Written?
    ensures StoredNext(Load(s, env).0.seqFile) >= StoredNext(s.seqFile)
  {
    if !s.queueFile.NoFile? { EnsureWorks(Content(s.queueFile), s.seqFile); }
  }

  lemma SendWrites(file: QueueFile, queue: seq<Item>, item: Item, now: int, outcome: WriteOutcome)
    requires FileOk(file) && WellFormed(queue) && ValidSeq(item) && forall x :: x in queue ==> Num(x) < Num(item)
    ensures var after := WriteQueue(file, Prune(queue + [item], now), outcome);
      FileOk(after) && forall x :: x in Content(after) ==> x in Content(file) || x in queue || x == item
  {
    var longer := queue + [item];
    assert Increasing(longer) by {
      assert forall i :: 0 <= i < |queue| ==> queue[i] in queue;
    }
    PruneExact(longer, now);
    PruneIncreasing(longer, now);
    WriteOk(file, Prune(longer, now), outcome);
  }

  /** What an operation leaves for the client: a well-formed file without foreign
      items, and a sequence file that did not go back. */
  ghost predicate Serves(s: Store, after: Store) {
    && FileOk(after.queueFile) && Numbered(after)
    && StoredNext(s.seqFile) <= StoredNext(after.seqFile)
    && (forall x :: x in Content(after.queueFile) ==> x in Content(s.queueFile))
  }

  lemma LoadServes(s: Store, env: Env)
    requires FileOk(s.queueFile) && Numbered(s) && env.loadSeq.Written?
    ensures Serves(s, Load(s, env).0) && LoadedOk(Load(s, env).0, Load(s, env).1)
    ensures Pruned(s, env.now, Load(s, env).0, Load(s, env).1)
  {
    LoadPrunes(s, env);
    LoadWorks(s, env);
    SeqFileGrows(s, env);
  }

  /** A send adds one item, whose number is past everything the sequence file allowed
      before. */
  lemma SendFile(s: Store, body: string, env: Env)
    requires FileOk(s.queueFile) && Numbered(s) && env.loadSeq.Written? && env.sendSeq.Written?
    ensures var (after, item) := MobileQueue.Send(s, body, env);
      && FileOk(after.queueFile) && Numbered(after)
      && (forall x :: x in Content(after.queueFile) ==> x in Content(s.queueFile) || x == item)
      && StoredNext(s.seqFile) <= Num(item) < StoredNext(after.seqFile)
  {
    LoadServes(s, env);
    SendNumbers(s, body, env);
    SendFrom(s, Load(s, env).0, Load(s, env).1, body, env);
  }

  lemma SendFrom(s: Store, loaded: Store, queue: seq<Item>, body: string, env: Env)
    requires Serves(s, loaded) && LoadedOk(loaded, queue) && Pruned(s, env.now, loaded, queue) && env.sendSeq.Written?
    ensures var n := NextSeq(loaded.seqFile, queue); var item := Item(Number(n), Time(env.now), body);
      var file := WriteQueue(loaded.queueFile, Prune(queue + [item], env.now), env.sendQueue);
      && FileOk(file) && StoredNext(s.seqFile) <= n < StoredNext(Replace(loaded.seqFile, n + 1, env.sendSeq))
      && (forall x :: x in Content(file) ==> x in Content(s.queueFile) || x == item)
  {
    var n := NextSeq(loaded.seqFile, queue);
    SendWrites(loaded.queueFile, queue, Item(Number(n), Time(env.now), body), env.now, env.sendQueue);
  }

  lemma SendKeeps(w: World, store: Store, item: Item, now: int)
    requires Inv(w) && FileOk(store.queueFile) && Numbered(store) && now >= w.clock
    requires forall x :: x in Content(store.queueFile) ==> x in Content(w.store.queueFile) || x == item
    requires StoredNext(w.store.seqFile) <= Num(item) < StoredNext(store.seqFile)
    ensures Inv(w.(store := store, clock := now, sent := w.sent + [item]))
  {
  }

  lemma SendInv(w: World, op: Op)
    requires Inv(w) && op.Send? && Fair(op, w.clock)
    ensures Inv(Step(w, op))
  {
    SendFile(w.store, op.body, op.env);
    var (store, item) := MobileQueue.Send(w.store, op.body, op.env);
    SendKeeps(w, store, item, op.env.now);
  }

  lemma ServesKeeps(w: World, store: Store, now: int)
    requires Inv(w) && Serves(w.store, store) && now >= w.clock
    ensures Inv(w.(store := store, clock := now))
  {
  }

  lemma AckWrites(s: Store, loaded: Store, queue: seq<Item>, upTo: int, now: int, outcome: WriteOutcome)
    requires Serves(s, loaded) && Pruned(s, now, loaded, queue)
    ensures Serves(s, loaded.(queueFile := WriteQueue(loaded.queueFile, After(queue, upTo), outcome)))
  {
    AfterExact(queue, upTo);
    AfterIncreasing(queue, upTo);
    WriteOk(loaded.queueFile, After(queue, upTo), outcome);
  }

  lemma AckInv(w: World, op: Op)
    requires Inv(w) && op.Ack? && Fair(op, w.clock)
    ensures Inv(Step(w, op))
  {
    LoadServes(w.store, op.env);
    var (loaded, queue) := Load(w.store, op.env);
    AckWrites(w.store, loaded, queue, op.upTo, op.env.now, op.env.sendQueue);
    ServesKeeps(w, MobileQueue.Ack(w.store, op.upTo, op.env).0, op.env.now);
  }

  function Ahead(queue: seq<Item>, cursor: Option<int>): seq<Item> {
    if cursor.None? then queue else After(queue, cursor.value)
  }

  /** Among the survivors, those ahead of the cursor are those not yet received. */
  lemma AheadIsUnreceived(w: World, queue: seq<Item>, now: int)
    requires ClientOk(w) && NoneSkipped(w) && now >= w.clock && Increasing(queue)
    requires forall x :: x in queue ==> x in Content(w.store.queueFile) && Retained(x, now)
    ensures Increasing(Ahead(queue, w.cursor))
    ensures forall x :: x in Ahead(queue, w.cursor) <==> x in queue && x !in w.received
    ensures forall x :: x in Ahead(queue, w.cursor) ==> !Behind(w.cursor, x)
  {
    forall x | x in queue ensures x !in w.received <==> !Behind(w.cursor, x) {
      if x in w.received {
        var i :| 0 <= i < |w.received| && w.received[i] == x;
        assert Num(w.received[i]) <= Num(w.received[|w.received| - 1]);
      }
    }
    if w.cursor.Some? {
      AfterExact(queue, w.cursor.value);
      AfterIncreasing(queue, w.cursor.value);
    }
  }

  lemma PrefixOfIncreasing(batch: seq<Item>, ahead: seq<Item>)
    requires Increasing(ahead) && batch <= ahead
    ensures forall x, y :: x in batch && y in ahead && y !in batch ==> Num(x) < Num(y)
    ensures Increasing(batch) && forall x :: x in batch ==> x in ahead && Num(x) <= Num(batch[|batch| - 1])
  {
    assert forall t :: 0 <= t < |batch| ==> ahead[t] == batch[t] && ahead[t] in batch;
    forall x, y | x in batch && y in ahead && y !in batch ensures Num(x) < Num(y) {
      var i :| 0 <= i < |batch| && batch[i] == x;
      var j :| 0 <= j < |ahead| && ahead[j] == y;
      assert ahead[i] == x;
    }
    forall x | x in batch ensures x in ahead && Num(x) <= Num(batch[|batch| - 1]) {
      var i :| 0 <= i < |batch| && batch[i] == x;
      assert ahead[i] == x && ahead[|batch| - 1] == batch[|batch| - 1];
    }
  }

  lemma AppendIncreasing(received: seq<Item>, batch: seq<Item>)
    requires Increasing(received) && Increasing(batch)
    requires received != [] ==> forall x :: x in batch ==> Num(received[|received| - 1]) < Num(x)
    ensures Increasing(received + batch)
  {
    forall i, j | 0 <= i < |received| && 0 <= j < |batch| ensures Num(received[i]) < Num(batch[j]) {
      assert batch[j] in batch;
      assert Num(received[i]) <= Num(received[|received| - 1]);
    }
  }

  /** Receiving a batch skips nothing: between the old and the new cursor lies exactly
      the batch. */
  lemma ReceiveSkipsNone(w: World, queue: seq<Item>, batch: seq<Item>, now: int, x: Item)
    requires ClientOk(w) && NoneSkipped(w) && now >= w.clock && Increasing(queue)
    requires forall y :: y in queue <==> y in Content(w.store.queueFile) && Retained(y, now)
    requires batch != [] && batch <= Ahead(queue, w.cursor)
    requires x in Content(w.store.queueFile) && Num(x) <= Num(batch[|batch| - 1]) && Retained(x, now)
    ensures x in w.received || x in batch
  {
    AheadIsUnreceived(w, queue, now);
    PrefixOfIncreasing(batch, Ahead(queue, w.cursor));
    assert batch[|batch| - 1] in batch;
  }

  lemma BatchIsNew(w: World, queue: seq<Item>, batch: seq<Item>, now: int)
    requires Inv(w) && now >= w.clock && Increasing(queue)
    requires forall x :: x in queue <==> x in Content(w.store.queueFile) && Retained(x, now)
    requires batch <= Ahead(queue, w.cursor)
    ensures Increasing(batch)
    ensures forall x :: x in batch ==> x in queue && x in w.sent && !Behind(w.cursor, x)
  {
    AheadIsUnreceived(w, queue, now);
    PrefixOfIncreasing(batch, Ahead(queue, w.cursor));
  }

  lemma LastOf(received: seq<Item>, batch: seq<Item>)
    requires batch != []
    ensures (received + batch)[|received + batch| - 1] == batch[|batch| - 1]
    ensures forall x :: x in received + batch <==> x in received || x in batch
  {
  }

  lemma AheadOfReceived(w: World, batch: seq<Item>)
    requires ClientOk(w) && forall x :: x in batch ==> !Behind(w.cursor, x)
    ensures w.received != [] ==> forall x :: x in batch ==> Num(w.received[|w.received| - 1]) < Num(x)
  {
  }

  lemma ReceivedIncreasing(w: World, queue: seq<Item>, batch: seq<Item>, now: int)
    requires Inv(w) && now >= w.clock && Increasing(queue)
    requires forall x :: x in queue <==> x in Content(w.store.queueFile) && Retained(x, now)
    requires batch <= Ahead(queue, w.cursor)
    ensures Increasing(w.received + batch)
  {
    BatchIsNew(w, queue, batch, now);
    AheadOfReceived(w, batch);
    AppendIncreasing(w.received, batch);
  }

  lemma ReceivedWereSent(w: World, queue: seq<Item>, batch: seq<Item>, now: int)
    requires Inv(w) && now >= w.clock && Increasing(queue)
    requires forall x :: x in queue <==> x in Content(w.store.queueFile) && Retained(x, now)
    requires batch != [] && batch <= Ahead(queue, w.cursor)
    ensures batch[|batch| - 1] in queue && forall x :: x in w.received + batch ==> x in w.sent
  {
    BatchIsNew(w, queue, batch, now);
    assert batch[|batch| - 1] in batch;
    LastOf(w.received, batch);
  }

  lemma ReceiverOk(w: World, queue: seq<Item>, batch: seq<Item>)
    requires batch != [] && Increasing(w.received) && (forall x :: x in w.received ==> x in w.sent)
    requires w.received != [] && w.received[|w.received| - 1] == batch[|batch| - 1] && w.cursor == Some(Num(batch[|batch| - 1]))
    requires LoadedOk(w.store, queue) && batch[|batch| - 1] in queue
    ensures ClientOk(w)
  {
  }

  lemma StoreStaysOk(w: World, after: World)
    requires StoreOk(w) && Serves(w.store, after.store) && after.sent == w.sent
    ensures StoreOk(after)
  {
  }

  lemma ReceiveClient(w: World, after: World, queue: seq<Item>, batch: seq<Item>)
    requires Inv(w) && after.clock >= w.clock && LoadedOk(after.store, queue)
    requires forall x :: x in queue <==> x in Content(w.store.queueFile) && Retained(x, after.clock)
    requires batch != [] && batch <= Ahead(queue, w.cursor)
    requires after.cursor == Some(Num(batch[|batch| - 1])) && after.received == w.received + batch && after.sent == w.sent
    ensures ClientOk(after)
  {
    ReceivedIncreasing(w, queue, batch, after.clock);
    ReceivedWereSent(w, queue, batch, after.clock);
    LastOf(w.received, batch);
    ReceiverOk(after, queue, batch);
  }

  lemma ReceiveKeeps(w: World, after: World, queue: seq<Item>, batch: seq<Item>)
    requires Inv(w) && after.clock >= w.clock && Serves(w.store, after.store) && LoadedOk(after.store, queue)
    requires forall x :: x in queue <==> x in Content(w.store.queueFile) && Retained(x, after.clock)
    requires batch != [] && batch <= Ahead(queue, w.cursor)
    requires after.cursor == Some(Num(batch[|batch| - 1])) && after.received == w.received + batch && after.sent == w.sent
    ensures Inv(after)
  {
    StoreStaysOk(w, after);
    ReceiveClient(w, after, queue, batch);
    ReceiveLeavesNone(w, after, queue, batch);
  }

  lemma ReceiveLeavesNone(w: World, after: World, queue: seq<Item>, batch: seq<Item>)
    requires ClientOk(w) && NoneSkipped(w) && after.clock >= w.clock && Increasing(queue)
    requires forall x :: x in queue <==> x in Content(w.store.queueFile) && Retained(x, after.clock)
    requires batch != [] && batch <= Ahead(queue, w.cursor)
    requires forall x :: x in Content(after.store.queueFile) ==> x in Content(w.store.queueFile)
    requires after.cursor == Some(Num(batch[|batch| - 1])) && after.received == w.received + batch
    ensures NoneSkipped(after)
  {
    forall x | x in Content(after.store.queueFile) && Behind(after.cursor, x) ensures x in after.received || !Retained(x, after.clock) {
      if Retained(x, after.clock) { ReceiveSkipsNone(w, queue, batch, after.clock, x); }
    }
  }

  lemma PollInv(w: World, op: Op)
    requires Inv(w) && op.Poll? && Fair(op, w.clock)
    ensures Inv(Step(w, op))
  {
    LoadServes(w.store, op.env);
    var (loaded, queue) := Load(w.store, op.env);
    var batch := Take(Ahead(queue, w.cursor), ClampLimit(op.limit));
    PollIs(w.store, w.cursor, op.limit, op.env);
    if op.delivered && batch != [] {
      ReceiveKeeps(w, Step(w, op), queue, batch);
    } else {
      ServesKeeps(w, loaded, op.env.now);
    }
  }

  lemma PollIs(s: Store, cursor: Option<int>, limit: int, env: Env)
    ensures MobileQueue.Poll(s, cursor, limit, env) == (Load(s, env).0, Take(Ahead(Load(s, env).1, cursor), ClampLimit(limit)))
  {
  }

  lemma StepInv(w: World, op: Op)
    requires Inv(w) && Fair(op, w.clock)
    ensures Inv(Step(w, op))
  {
    match op
    case Send(_, _) => SendInv(w, op);
    case Poll(_, _, _) => PollInv(w, op);
    case Ack(_, _) => AckInv(w, op);
  }

  lemma {:induction false} RunInv(ops: seq<Op>)
    requires AllFair(ops)
    ensures Inv(Run(ops))
    decreases |ops|
  {
    if ops != [] {
      RunInv(ops[..|ops| - 1]);
      StepInv(Run(ops[..|ops| - 1]), ops[|ops| - 1]);
    }
  }

  /** Over any run from an empty store in which the sequence file can be written:
      what the client received is strictly ascending (each message once, in order),
      was really sent, and the next poll returns the first of exactly those
      surviving messages that it has not received, none only if there are none. */
  lemma EachSurvivorOnceInOrder(ops: seq<Op>, limit: int, env: Env)
    requires AllFair(ops) && Fair(Poll(limit, true, env), Run(ops).clock)
    ensures var w := Run(ops); var queue := Load(w.store, env).1;
      var batch := MobileQueue.Poll(w.store, w.cursor, limit, env).1;
      && Increasing(w.received) && (forall x :: x in w.received ==> x in w.sent)
      && (forall x :: x in batch ==> x in queue && x !in w.received)
      && (forall x, y :: x in batch && y in queue && y !in w.received && y !in batch ==> Num(x) < Num(y))
      && (batch == [] <==> forall x :: x in queue ==> x in w.received)
  {
    RunInv(ops);
    var w := Run(ops);
    LoadPrunes(w.store, env);
    PollIs(w.store, w.cursor, limit, env);
    NextBatch(w, Load(w.store, env).1, limit, env.now);
  }

  lemma NextBatch(w: World, queue: seq<Item>, limit: int, now: int)
    requires ClientOk(w) && NoneSkipped(w) && now >= w.clock && Increasing(queue)
    requires forall x :: x in queue ==> x in Content(w.store.queueFile) && Retained(x, now)
    ensures var batch := Take(Ahead(queue, w.cursor), ClampLimit(limit));
      && (forall x :: x in batch ==> x in queue && x !in w.received)
      && (forall x, y :: x in batch && y in queue && y !in w.received && y !in batch ==> Num(x) < Num(y))
      && (batch == [] <==> forall x :: x in queue ==> x in w.received)
  {
    AheadIsUnreceived(w, queue, now);
    var ahead := Ahead(queue, w.cursor);
    PrefixOfIncreasing(Take(ahead, ClampLimit(limit)), ahead);
    assert ahead != [] ==> ahead[0] in ahead;
  }
}
