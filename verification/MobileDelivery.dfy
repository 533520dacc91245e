/** That messages arrive: a sent item is stored, stays in the queue until something the
    caller can see takes it away, and reaches a client that goes on polling. */
module MobileDelivery {
  import opened SafeWrite
  import opened Sequences
  import opened MobileQueue
  import C = MobileClient

  // ---- what one send and one acknowledgement store -----------------------

  lemma {:induction false} YoungStay(items: seq<Item>, now: int)
    requires forall x :: x in items ==> Retained(x, now)
    ensures KeepRetained(items, now) == items
    decreases |items|
  {
    if items != [] {
      assert items == [items[0]] + items[1..];
      YoungStay(items[1..], now);
    }
  }

  lemma PrunedQueue(s: Store, env: Env)
    ensures |Load(s, env).1| <= QUEUE_MAX_ITEMS && forall x :: x in Load(s, env).1 ==> Retained(x, env.now)
  {
    if !s.queueFile.NoFile? {
      PruneExact(EnsureSequences(ItemsOf(Entries(s.queueFile)), s.seqFile, env.loadSeq).queue, env.now);
    }
  }

  /** The loaded queue without its oldest item if it is full. */
  function MakeRoom(queue: seq<Item>): seq<Item> {
    if |queue| < QUEUE_MAX_ITEMS then queue else queue[|queue| - QUEUE_MAX_ITEMS + 1..]
  }

  lemma PruneLonger(queue: seq<Item>, item: Item, now: int)
    requires |queue| <= QUEUE_MAX_ITEMS && Retained(item, now) && forall x :: x in queue ==> Retained(x, now)
    ensures Prune(queue + [item], now) == MakeRoom(queue) + [item]
  {
    YoungStay(queue + [item], now);
  }

  /** A send whose queue write succeeds leaves a file that ends with the item -- its number,
      its time, its body -- after all that was loaded, but for the oldest of 500. */
  lemma SendStores(s: Store, body: string, env: Env)
    requires env.sendQueue.Written?
    ensures var (after, item) := Send(s, body, env);
      && item.seqNo.Number? && item.stamp == Time(env.now) && item.body == body
      && C.Content(after.queueFile) == MakeRoom(Load(s, env).1) + [item]
      && after.queueFile == Stored(EntriesOf(MakeRoom(Load(s, env).1) + [item]))
  {
    PrunedQueue(s, env);
    PruneLonger(Load(s, env).1, Send(s, body, env).1, env.now);
    C.ItemsOfEntries(MakeRoom(Load(s, env).1) + [Send(s, body, env).1]);
  }

  /** If the write fails the file is as the load left it, or gone. */
  lemma SendFails(s: Store, body: string, env: Env)
    requires !env.sendQueue.Written?
    ensures Send(s, body, env).0.queueFile == if env.sendQueue.KeptOld? then Load(s, env).0.queueFile else NoFile
  {
  }

  lemma LoadedFile(s: Store, env: Env)
    requires C.FileOk(s.queueFile) && env.loadQueue.Written?
    ensures C.Content(Load(s, env).0.queueFile) == Load(s, env).1
  {
    if s.queueFile.Stored? {
      C.EnsureIdentity(C.Content(s.queueFile), s.seqFile, env.loadSeq);
      C.ItemsOfEntries(Prune(C.Content(s.queueFile), env.now));
    }
  }

  lemma AckedFile(s: Store, upTo: int, env: Env, queue: seq<Item>)
    requires C.Content(Load(s, env).0.queueFile) == queue == Load(s, env).1 && env.sendQueue.Written?
    ensures C.Content(Ack(s, upTo, env).0.queueFile) == After(queue, upTo) && Ack(s, upTo, env).1 == |After(queue, upTo)|
  {
    C.ItemsOfEntries(After(queue, upTo));
  }

  /** An acknowledgement leaves exactly the young items above the number, and says how many. */
  lemma AckLeaves(s: Store, upTo: int, env: Env)
    requires C.FileOk(s.queueFile) && env.loadQueue.Written? && env.sendQueue.Written?
    ensures var (after, left) := Ack(s, upTo, env); var content := C.Content(after.queueFile);
      && left == |content| && Increasing(content)
      && forall x :: x in content <==> x in C.Content(s.queueFile) && Retained(x, env.now) && Num(x) > upTo
  {
    var queue := Load(s, env).1;
    C.LoadPrunes(s, env);
    LoadedFile(s, env);
    AckedFile(s, upTo, env, queue);
    C.AfterExact(queue, upTo);
    C.AfterIncreasing(queue, upTo);
  }

  /** A look returns, in order, the first items of the loaded queue above the cursor: as many
      as there are, but at least one and at most 50 of them as the limit says. */
  lemma PollReturns(s: Store, cursor: Option<int>, limit: int, env: Env)
    ensures var queue := Load(s, env).1; var batch := Poll(s, cursor, limit, env).1; var ahead := C.Ahead(queue, cursor);
      && Poll(s, cursor, limit, env).0 == Load(s, env).0
      && batch <= ahead && (forall x :: x in ahead <==> x in queue && (cursor.None? || Num(x) > cursor.value))
      && (Increasing(queue) ==> Increasing(ahead))
      && (1 <= limit <= 50 ==> |batch| == if |ahead| < limit then |ahead| else limit)
      && (limit < 1 ==> |batch| == if ahead == [] then 0 else 1)
      && (limit > 50 ==> |batch| == if |ahead| < 50 then |ahead| else 50)
  {
    var queue := Load(s, env).1;
    if cursor.Some? {
      C.AfterExact(queue, cursor.value);
      if Increasing(queue) { C.AfterIncreasing(queue, cursor.value); }
    }
  }

  // ---- what loading any file keeps ---------------------------------------

  /** How many items carry this time and body, whatever their numbers. */
  function Copies(items: seq<Item>, stamp: Stamp, body: string): nat
    decreases |items|
  {
    if items == [] then 0
    else (if items[0].stamp == stamp && items[0].body == body then 1 else 0) + Copies(items[1..], stamp, body)
  }

  function CopiesInFile(entries: seq<Entry>, stamp: Stamp, body: string): nat
    decreases |entries|
  {
    if entries == [] then 0
    else
      var here := entries[0].Mapping? && entries[0].item.stamp == stamp && entries[0].item.body == body;
      (if here then 1 else 0) + CopiesInFile(entries[1..], stamp, body)
  }

  lemma CopiesCons(it: Item, items: seq<Item>, stamp: Stamp, body: string)
    ensures Copies([it] + items, stamp, body) == (if it.stamp == stamp && it.body == body then 1 else 0) + Copies(items, stamp, body)
  {
    assert ([it] + items)[1..] == items;
  }

  lemma {:induction false} ItemsCopies(entries: seq<Entry>, stamp: Stamp, body: string)
    ensures Copies(ItemsOf(entries), stamp, body) == CopiesInFile(entries, stamp, body) && |ItemsOf(entries)| <= |entries|
    decreases |entries|
  {
    if entries != [] {
      ItemsCopies(entries[1..], stamp, body);
      if entries[0].Mapping? {
        CopiesCons(entries[0].item, ItemsOf(entries[1..]), stamp, body);
      } else {
        assert ItemsOf(entries) == ItemsOf(entries[1..]);
      }
    }
  }

  lemma {:induction false} RenumberCopies(items: seq<Item>, next: int, seen: set<int>, stamp: Stamp, body: string)
    ensures var r := Renumber(items, next, seen).0; Copies(r, stamp, body) == Copies(items, stamp, body) && |r| == |items|
    decreases |items|
  {
    if items != [] {
      var it, tail := items[0], items[1..];
      if !ValidSeq(it) || Num(it) in seen {
        RenumberCopies(tail, next + 1, seen + {next}, stamp, body);
        CopiesCons(it.(seqNo := Number(next)), Renumber(tail, next + 1, seen + {next}).0, stamp, body);
      } else {
        RenumberCopies(tail, next, seen + {Num(it)}, stamp, body);
        CopiesCons(it, Renumber(tail, next, seen + {Num(it)}).0, stamp, body);
      }
    }
  }

  lemma {:induction false} InsertCopies(it: Item, sorted: seq<Item>, stamp: Stamp, body: string)
    ensures Copies(InsertBySeq(it, sorted), stamp, body) == Copies([it] + sorted, stamp, body)
    ensures |InsertBySeq(it, sorted)| == |sorted| + 1
    decreases |sorted|
  {
    CopiesCons(it, sorted, stamp, body);
    if sorted != [] && !(Num(it) <= Num(sorted[0])) {
      InsertCopies(it, sorted[1..], stamp, body);
      CopiesCons(it, sorted[1..], stamp, body);
      CopiesCons(sorted[0], InsertBySeq(it, sorted[1..]), stamp, body);
    }
  }

  lemma {:induction false} SortCopies(items: seq<Item>, stamp: Stamp, body: string)
    ensures Copies(SortBySeq(items), stamp, body) == Copies(items, stamp, body) && |SortBySeq(items)| == |items|
    decreases |items|
  {
    if items != [] {
      SortCopies(items[1..], stamp, body);
      InsertCopies(items[0], SortBySeq(items[1..]), stamp, body);
      CopiesCons(items[0], SortBySeq(items[1..]), stamp, body);
    }
  }

  lemma {:induction false} RetainedCopies(items: seq<Item>, now: int, stamp: Stamp, body: string)
    ensures Copies(KeepRetained(items, now), stamp, body)
         == if stamp.Time? && stamp.t < now - QUEUE_MAX_AGE_SECONDS then 0 else Copies(items, stamp, body)
    decreases |items|
  {
    if items != [] {
      RetainedCopies(items[1..], now, stamp, body);
      if Retained(items[0], now) {
        CopiesCons(items[0], KeepRetained(items[1..], now), stamp, body);
      } else {
        assert KeepRetained(items, now) == KeepRetained(items[1..], now);
      }
    }
  }

  /** From any list of at most 500 elements -- junk, missing, repeated or wrong numbers
      included -- loading keeps every message that is not a day old as often as it is
      there, and nothing else. */
  lemma LoadKeepsMessages(s: Store, env: Env, stamp: Stamp, body: string)
    requires s.queueFile.Stored? && |s.queueFile.entries| <= QUEUE_MAX_ITEMS
    ensures Copies(Load(s, env).1, stamp, body)
         == if stamp.Time? && stamp.t < env.now - QUEUE_MAX_AGE_SECONDS then 0 else CopiesInFile(s.queueFile.entries, stamp, body)
  {
    var items := ItemsOf(s.queueFile.entries);
    var next := NextSeq(s.seqFile, items);
    var numbered := Renumber(items, next, {}).0;
    ItemsCopies(s.queueFile.entries, stamp, body);
    RenumberCopies(items, next, {}, stamp, body);
    SortCopies(numbered, stamp, body);
    RetainedCopies(SortBySeq(numbered), env.now, stamp, body);
    KeepRetainedExact(SortBySeq(numbered), env.now);
  }

  // ---- an item stays -----------------------------------------------------

  /** Nothing about this step takes x away: x is young enough, no queue write loses the
      file, and an acknowledgement stops short of it. */
  predicate Spares(op: C.Op, x: Item) {
    && Retained(x, op.env.now) && !op.env.loadQueue.LostOld? && !op.env.sendQueue.LostOld?
    && (op.Ack? ==> op.upTo < Num(x))
  }

  predicate AllSpare(ops: seq<C.Op>, x: Item) {
    forall i :: 0 <= i < |ops| ==> Spares(ops[i], x)
  }

  function Sends(ops: seq<C.Op>): nat
    decreases |ops|
  {
    if ops == [] then 0 else Sends(ops[..|ops| - 1]) + if ops[|ops| - 1].Send? then 1 else 0
  }

  /** x is in the file, with at most k newer items. */
  ghost predicate HeldBy(q: QueueFile, x: Item, k: nat) {
    x in C.Content(q) && |After(C.Content(q), Num(x))| <= k
  }

  lemma {:induction false} AfterAppend(a: seq<Item>, b: seq<Item>, n: int)
    ensures After(a + b, n) == After(a, n) + After(b, n)
    decreases |a|
  {
    if a == [] {
      assert a + b == b;
    } else {
      assert a + b == [a[0]] + (a[1..] + b);
      AfterAppend(a[1..], b, n);
      Assoc(if Num(a[0]) > n then [a[0]] else [], After(a[1..], n), After(b, n));
    }
  }

  lemma {:induction false} FewerRetained(items: seq<Item>, now: int, n: int)
    ensures |After(KeepRetained(items, now), n)| <= |After(items, n)|
    decreases |items|
  {
    if items != [] {
      FewerRetained(items[1..], now, n);
      AfterAppend(if Retained(items[0], now) then [items[0]] else [], KeepRetained(items[1..], now), n);
      assert items == [items[0]] + items[1..];
    }
  }

  lemma PruneFew(items: seq<Item>, now: int, x: Item, k: nat)
    requires |items| <= QUEUE_MAX_ITEMS && x in items && Retained(x, now) && |After(items, Num(x))| <= k
    ensures x in Prune(items, now) && |After(Prune(items, now), Num(x))| <= k
  {
    KeepRetainedExact(items, now);
    FewerRetained(items, now, Num(x));
  }

  /** Loading keeps x in queue and file. */
  lemma LoadHolds(s: Store, env: Env, x: Item, k: nat)
    requires C.FileOk(s.queueFile) && HeldBy(s.queueFile, x, k) && Retained(x, env.now) && !env.loadQueue.LostOld?
    ensures HeldBy(Load(s, env).0.queueFile, x, k) && x in Load(s, env).1 && |After(Load(s, env).1, Num(x))| <= k
  {
    C.LoadShape(s, env);
    PruneFew(C.Content(s.queueFile), env.now, x, k);
    C.ItemsOfEntries(Load(s, env).1);
  }

  lemma {:induction false} AllAfter(items: seq<Item>, n: int)
    requires forall y :: y in items ==> Num(y) > n
    ensures After(items, n) == items
    decreases |items|
  {
    if items != [] {
      assert items == [items[0]] + items[1..];
      AllAfter(items[1..], n);
    }
  }

  /** Making room drops x only when 499 newer items stand before the new one. */
  lemma RoomHolds(queue: seq<Item>, item: Item, x: Item, k: nat)
    requires Increasing(queue) && |queue| <= QUEUE_MAX_ITEMS && x in queue && |After(queue, Num(x))| <= k
    requires k + 1 < QUEUE_MAX_ITEMS
    ensures x in MakeRoom(queue) + [item] && |After(MakeRoom(queue) + [item], Num(x))| <= k + 1
  {
    AfterAppend(MakeRoom(queue), [item], Num(x));
    assert [item][1..] == [];
    if |queue| == QUEUE_MAX_ITEMS {
      var rest := queue[1..];
      assert queue == [queue[0]] + rest && MakeRoom(queue) == rest;
      AfterAppend([queue[0]], rest, Num(x));
      if x == queue[0] {
        forall y | y in rest ensures Num(y) > Num(x) {
          var j :| 0 <= j < |rest| && rest[j] == y;
          assert queue[j + 1] == y;
        }
        AllAfter(rest, Num(x));
      }
    }
  }

  lemma SendHolds(s: Store, body: string, env: Env, x: Item, k: nat)
    requires C.FileOk(s.queueFile) && HeldBy(s.queueFile, x, k) && k + 1 < QUEUE_MAX_ITEMS
    requires Retained(x, env.now) && !env.loadQueue.LostOld? && !env.sendQueue.LostOld?
    ensures HeldBy(Send(s, body, env).0.queueFile, x, k + 1)
  {
    LoadHolds(s, env, x, k);
    if env.sendQueue.Written? {
      SendStores(s, body, env);
      C.LoadPrunes(s, env);
      PrunedQueue(s, env);
      RoomHolds(Load(s, env).1, Send(s, body, env).1, x, k);
    } else {
      SendFails(s, body, env);
    }
  }

  lemma {:induction false} AfterBoth(items: seq<Item>, m: int, n: int)
    requires m <= n
    ensures After(After(items, m), n) == After(items, n)
    decreases |items|
  {
    if items != [] {
      AfterBoth(items[1..], m, n);
      AfterAppend(if Num(items[0]) > m then [items[0]] else [], After(items[1..], m), n);
      assert [items[0]][1..] == [];
    }
  }

  lemma AckHolds(s: Store, upTo: int, env: Env, x: Item, k: nat)
    requires C.FileOk(s.queueFile) && HeldBy(s.queueFile, x, k) && upTo < Num(x)
    requires Retained(x, env.now) && !env.loadQueue.LostOld? && !env.sendQueue.LostOld?
    ensures HeldBy(Ack(s, upTo, env).0.queueFile, x, k)
  {
    LoadHolds(s, env, x, k);
    var queue := Load(s, env).1;
    C.AfterExact(queue, upTo);
    AfterBoth(queue, upTo, Num(x));
    C.ItemsOfEntries(After(queue, upTo));
  }

  lemma StepHolds(w: C.World, op: C.Op, x: Item, k: nat)
    requires C.FileOk(w.store.queueFile) && HeldBy(w.store.queueFile, x, k) && Spares(op, x)
    requires op.Send? ==> k + 1 < QUEUE_MAX_ITEMS
    ensures HeldBy(C.Step(w, op).store.queueFile, x, if op.Send? then k + 1 else k)
  {
    match op
    case Send(body, env) => SendHolds(w.store, body, env, x, k);
    case Poll(_, _, env) => LoadHolds(w.store, env, x, k);
    case Ack(upTo, env) => AckHolds(w.store, upTo, env, x, k);
  }

  lemma FairFront(ops: seq<C.Op>, more: seq<C.Op>)
    requires more != [] && C.AllFair(ops + more)
    ensures var front, last := more[..|more| - 1], more[|more| - 1];
      && C.AllFair(ops + front) && C.Fair(last, C.Run(ops + front).clock)
      && C.Run(ops + more) == C.Step(C.Run(ops + front), last)
  {
    assert (ops + more)[..|ops + more| - 1] == ops + more[..|more| - 1];
  }

  lemma {:induction false} FairPrefix(ops: seq<C.Op>, more: seq<C.Op>)
    requires C.AllFair(ops + more)
    ensures C.AllFair(ops)
    decreases |more|
  {
    if more == [] {
      assert ops + more == ops;
    } else {
      FairFront(ops, more);
      FairPrefix(ops, more[..|more| - 1]);
    }
  }

  lemma {:induction false} RunHolds(ops: seq<C.Op>, more: seq<C.Op>, x: Item)
    requires C.AllFair(ops + more) && AllSpare(more, x) && Sends(more) < QUEUE_MAX_ITEMS
    requires HeldBy(C.Run(ops).store.queueFile, x, 0)
    ensures HeldBy(C.Run(ops + more).store.queueFile, x, Sends(more))
    decreases |more|
  {
    if more == [] {
      assert ops + more == ops;
    } else {
      var front, last := more[..|more| - 1], more[|more| - 1];
      FairFront(ops, more);
      RunHolds(ops, front, x);
      C.RunInv(ops + front);
      StepHolds(C.Run(ops + front), last, x, Sends(front));
    }
  }

  /** Stored with the newest number. */
  lemma SentIsHeld(ops: seq<C.Op>, body: string, env: Env)
    requires C.AllFair(ops + [C.Send(body, env)]) && env.sendQueue.Written?
    ensures var w := C.Run(ops + [C.Send(body, env)]); var item := Send(C.Run(ops).store, body, env).1;
      HeldBy(w.store.queueFile, item, 0) && w.sent == C.Run(ops).sent + [item] && item !in C.Run(ops).received
  {
    var send := C.Send(body, env);
    var s := C.Run(ops).store;
    var (after, item) := Send(s, body, env);
    assert (ops + [send])[..|ops|] == ops;
    C.RunInv(ops);
    C.RunInv(ops + [send]);
    SendStores(s, body, env);
    C.SendFile(s, body, env);
    var content := C.Content(after.queueFile);
    assert content[|content| - 1] == item;
    NothingAfterLast(content, Num(item));
    forall x | x in C.Run(ops).received ensures x != item { ReceivedAreOlder(C.Run(ops), x); }
  }

  lemma {:induction false} NothingAfterLast(items: seq<Item>, n: int)
    requires forall y :: y in items ==> Num(y) <= n
    ensures After(items, n) == []
    decreases |items|
  {
    if items != [] { NothingAfterLast(items[1..], n); }
  }

  lemma ReceivedAreOlder(w: C.World, x: Item)
    requires C.Inv(w) && x in w.received
    ensures Num(x) < StoredNext(w.store.seqFile)
  {
    var i :| 0 <= i < |w.received| && w.received[i] == x;
  }

  /** A sent item stays in every loaded queue, with its body and number, through any sends,
      polls and acknowledgements, until it is a day old, acknowledged, has 500 newer
      items or a write loses the queue file. */
  lemma SentStays(ops: seq<C.Op>, body: string, env: Env, more: seq<C.Op>, env': Env)
    requires C.AllFair(ops + [C.Send(body, env)] + more) && env.sendQueue.Written?
    requires var item := Send(C.Run(ops).store, body, env).1; AllSpare(more, item) && Retained(item, env'.now)
    requires Sends(more) < QUEUE_MAX_ITEMS
    ensures var item := Send(C.Run(ops).store, body, env).1;
      item.body == body && item in Load(C.Run(ops + [C.Send(body, env)] + more).store, env').1
  {
    var item := Send(C.Run(ops).store, body, env).1;
    var begun := ops + [C.Send(body, env)];
    FairPrefix(begun, more);
    SentIsHeld(ops, body, env);
    RunHolds(begun, more, item);
    C.RunInv(begun + more);
    C.LoadPrunes(C.Run(begun + more).store, env');
  }

  // ---- and arrives -------------------------------------------------------

  function DeliveredPolls(ops: seq<C.Op>): nat
    decreases |ops|
  {
    if ops == [] then 0 else DeliveredPolls(ops[..|ops| - 1]) + if ops[|ops| - 1].Poll? && ops[|ops| - 1].delivered then 1 else 0
  }

  /** What the client has still to receive, up to x. */
  ghost function Missing(w: C.World, x: Item): set<Item> {
    set y | y in C.Content(w.store.queueFile) && y !in w.received && Num(y) <= Num(x)
  }

  lemma {:induction false} ElementsBound(items: seq<Item>, s: set<Item>)
    requires forall y :: y in s ==> y in items
    ensures |s| <= |items|
    decreases |items|
  {
    if items == [] {
      assert s == {};
    } else {
      var n := |items| - 1;
      forall y | y in s - {items[n]} ensures y in items[..n] {
        var i :| 0 <= i < |items| && items[i] == y;
        assert items[..n][i] == y;
      }
      ElementsBound(items[..n], s - {items[n]});
      assert s <= (s - {items[n]}) + {items[n]};
    }
  }

  lemma SetShrinks<T>(a: set<T>, b: set<T>)
    requires a <= b
    ensures |a| <= |b| && (a != b ==> |a| < |b|)
  {
    assert b == a + (b - a);
  }

  /** Everything in the file was there before or is newer than x. */
  ghost predicate OnlyNewer(before: QueueFile, after: QueueFile, x: Item) {
    forall y :: y in C.Content(after) ==> y in C.Content(before) || Num(y) > Num(x)
  }

  lemma SendMisses(w: C.World, body: string, env: Env, x: Item)
    requires C.StoreOk(w) && env.loadSeq.Written? && env.sendSeq.Written? && x in C.Content(w.store.queueFile)
    ensures OnlyNewer(w.store.queueFile, Send(w.store, body, env).0.queueFile, x)
  {
    C.SendFile(w.store, body, env);
  }

  lemma AckMisses(s: Store, upTo: int, env: Env, x: Item)
    requires C.FileOk(s.queueFile) && Numbered(s) && env.loadSeq.Written?
    ensures OnlyNewer(s.queueFile, Ack(s, upTo, env).0.queueFile, x)
  {
    C.LoadServes(s, env);
    C.AckWrites(s, Load(s, env).0, Load(s, env).1, upTo, env.now, env.sendQueue);
  }

  lemma PollMisses(s: Store, env: Env, x: Item)
    requires C.FileOk(s.queueFile)
    ensures OnlyNewer(s.queueFile, Load(s, env).0.queueFile, x)
  {
    C.LoadPrunes(s, env);
  }

  /** Steps bring in nothing old, and what was received stays received. */
  lemma StepMisses(w: C.World, op: C.Op, x: Item)
    requires C.StoreOk(w) && C.Fair(op, w.clock) && x in C.Content(w.store.queueFile)
    ensures Missing(C.Step(w, op), x) <= Missing(w, x)
    ensures forall y :: y in w.received ==> y in C.Step(w, op).received
  {
    match op
    case Send(body, env) => SendMisses(w, body, env, x);
    case Poll(_, _, env) => PollMisses(w.store, env, x);
    case Ack(upTo, env) => AckMisses(w.store, upTo, env, x);
    assert OnlyNewer(w.store.queueFile, C.Step(w, op).store.queueFile, x);
  }

  /** A delivered poll brings x, or something older. */
  lemma PollBrings(w: C.World, op: C.Op, x: Item)
    requires C.Inv(w) && C.Fair(op, w.clock) && op.Poll? && op.delivered
    requires x in C.Content(w.store.queueFile) && Retained(x, op.env.now) && x !in w.received
    ensures x in C.Step(w, op).received || |Missing(C.Step(w, op), x)| < |Missing(w, x)|
  {
    var queue := Load(w.store, op.env).1;
    C.LoadPrunes(w.store, op.env);
    C.PollIs(w.store, w.cursor, op.limit, op.env);
    C.NextBatch(w, queue, op.limit, op.env.now);
    var batch := Take(C.Ahead(queue, w.cursor), ClampLimit(op.limit));
    assert x in queue && batch != [] && batch[0] in batch;
    assert C.Step(w, op).received == w.received + batch;
    StepMisses(w, op, x);
    if x !in batch {
      assert batch[0] in Missing(w, x) && batch[0] !in Missing(C.Step(w, op), x);
      SetShrinks(Missing(C.Step(w, op), x), Missing(w, x));
    }
  }

  lemma {:induction false} RunMisses(ops: seq<C.Op>, more: seq<C.Op>, x: Item)
    requires C.AllFair(ops + more) && AllSpare(more, x) && Sends(more) < QUEUE_MAX_ITEMS
    requires HeldBy(C.Run(ops).store.queueFile, x, 0) && C.AllFair(ops)
    ensures x in C.Run(ops + more).received || |Missing(C.Run(ops + more), x)| + DeliveredPolls(more) <= |Missing(C.Run(ops), x)|
    decreases |more|
  {
    if more == [] {
      assert ops + more == ops;
    } else {
      var front, last := more[..|more| - 1], more[|more| - 1];
      FairFront(ops, more);
      RunMisses(ops, front, x);
      RunHolds(ops, front, x);
      var w := C.Run(ops + front);
      C.RunInv(ops + front);
      StepMisses(w, last, x);
      SetShrinks(Missing(C.Step(w, last), x), Missing(w, x));
      if x !in w.received && last.Poll? && last.delivered { PollBrings(w, last, x); }
    }
  }

  /** Whoever goes on polling receives it: under the same conditions, once 500 polls have
      been delivered -- whatever their limits, and whatever else happens between -- the
      client has received the item. */
  lemma SentIsReceived(ops: seq<C.Op>, body: string, env: Env, more: seq<C.Op>)
    requires C.AllFair(ops + [C.Send(body, env)] + more) && env.sendQueue.Written?
    requires AllSpare(more, Send(C.Run(ops).store, body, env).1)
    requires Sends(more) < QUEUE_MAX_ITEMS && DeliveredPolls(more) >= QUEUE_MAX_ITEMS
    ensures Send(C.Run(ops).store, body, env).1 in C.Run(ops + [C.Send(body, env)] + more).received
  {
    var item := Send(C.Run(ops).store, body, env).1;
    var begun := ops + [C.Send(body, env)];
    var w := C.Run(begun + more);
    FairPrefix(begun, more);
    SentIsHeld(ops, body, env);
    C.RunInv(begun);
    RunHolds(begun, more, item);
    RunMisses(begun, more, item);
    ElementsBound(C.Content(C.Run(begun).store.queueFile), Missing(C.Run(begun), item));
    assert item in w.received || item in Missing(w, item);
  }
}
