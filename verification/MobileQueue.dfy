/** The durable, sequenced polling queue: two files written one after the other,
    repair of what is read, pruning, cursor polling and acknowledgement. */
module MobileQueue {
  import opened SafeWrite

  const QUEUE_MAX_ITEMS: nat := 500
  const QUEUE_MAX_AGE_SECONDS: int := 24 * 60 * 60

  /** The `seq` and `timestamp` fields as they may be found in the file. */
  datatype SeqField = Number(n: int) | NoNumber

  datatype Stamp = Time(t: int) | NoTime

  datatype Item = Item(seqNo: SeqField, stamp: Stamp, body: string)

  /** An element of the stored list; only mappings are items. */
  datatype Entry = Junk | Mapping(item: Item)

  /** `Unreadable`: not JSON, or not a list. */
  datatype QueueFile = NoFile | Unreadable | Stored(entries: seq<Entry>)

  /** `seqFile` is the stored number, None when missing, unreadable or not a number.
      `issued` is history: every number given to an item, oldest first. */
  datatype Store = Store(queueFile: QueueFile, seqFile: Option<int>, issued: seq<int>)

  function StoredNext(f: Option<int>): int {
    if f.Some? && f.value > 0 then f.value else 1
  }

  predicate ValidSeq(it: Item) {
    it.seqNo.Number? && it.seqNo.n > 0
  }

  function Num(it: Item): int {
    if it.seqNo.Number? then it.seqNo.n else 0
  }

  function Max(a: int, b: int): int {
    if a < b then b else a
  }

  function MaxSeq(items: seq<Item>): int
    decreases |items|
  {
    if items == [] then 0
    else Max(MaxSeq(items[..|items| - 1]), if ValidSeq(items[|items| - 1]) then Num(items[|items| - 1]) else 0)
  }

  function NextSeq(f: Option<int>, items: seq<Item>): int {
    Max(StoredNext(f), MaxSeq(items) + 1)
  }

  /** The repair loop: every item without a fresh positive number gets the next one. */
  function Renumber(items: seq<Item>, next: int, seen: set<int>): (seq<Item>, int)
    decreases |items|
  {
    if items == [] then ([], next)
    else
      var it := items[0];
      if !ValidSeq(it) || Num(it) in seen then
        var (rest, end) := Renumber(items[1..], next + 1, seen + {next});
        ([it.(seqNo := Number(next))] + rest, end)
      else
        var (rest, end) := Renumber(items[1..], next, seen + {Num(it)});
        ([it] + rest, end)
  }

  function InsertBySeq(it: Item, sorted: seq<Item>): (r: seq<Item>)
    ensures multiset(r) == multiset(sorted) + multiset{it}
    decreases |sorted|
  {
    if sorted == [] || Num(it) <= Num(sorted[0]) then
      [it] + sorted
    else
      assert sorted == [sorted[0]] + sorted[1..];
      [sorted[0]] + InsertBySeq(it, sorted[1..])
  }

  function SortBySeq(items: seq<Item>): (r: seq<Item>)
    ensures multiset(r) == multiset(items)
    decreases |items|
  {
    if items == [] then []
    else
      assert items == [items[0]] + items[1..];
      InsertBySeq(items[0], SortBySeq(items[1..]))
  }

  predicate Retained(it: Item, now: int) {
    it.stamp.Time? ==> it.stamp.t >= now - QUEUE_MAX_AGE_SECONDS
  }

  function KeepRetained(items: seq<Item>, now: int): seq<Item>
    decreases |items|
  {
    if items == [] then []
    else (if Retained(items[0], now) then [items[0]] else []) + KeepRetained(items[1..], now)
  }

  function Prune(items: seq<Item>, now: int): seq<Item> {
    var kept := KeepRetained(items, now);
    if |kept| <= QUEUE_MAX_ITEMS then kept else kept[|kept| - QUEUE_MAX_ITEMS..]
  }

  function ItemsOf(entries: seq<Entry>): seq<Item>
    decreases |entries|
  {
    if entries == [] then []
    else (if entries[0].Mapping? then [entries[0].item] else []) + ItemsOf(entries[1..])
  }

  function EntriesOf(items: seq<Item>): seq<Entry> {
    seq(|items|, i requires 0 <= i < |items| => Mapping(items[i]))
  }

  function Range(from: int, to: int): seq<int> {
    if from <= to then seq(to - from, i => from + i) else []
  }

  function WriteQueue(q: QueueFile, items: seq<Item>, outcome: WriteOutcome): QueueFile {
    match outcome
    case Written => Stored(EntriesOf(items))
    case KeptOld => q
    case LostOld => NoFile
  }

  /** What the file system and the clock do during one operation: outcomes of the
      sequence file and queue file writes of the load, and of the send.  A process
      that dies between two writes is an operation whose later writes do not happen. */
  datatype Env = Env(now: int, loadSeq: WriteOutcome, loadQueue: WriteOutcome, sendSeq: WriteOutcome, sendQueue: WriteOutcome)

  /** What `_ensure_sequences` returns and leaves: the repaired, sorted queue, the
      sequence file, and the numbers it issued, from `next` up to `end`. */
  datatype Ensured = Ensured(queue: seq<Item>, seqFile: Option<int>, next: int, end: int)

  function EnsureSequences(items: seq<Item>, seqFile: Option<int>, outcome: WriteOutcome): Ensured {
    var next := NextSeq(seqFile, items);
    var (numbered, end) := Renumber(items, next, {});
    var queue := SortBySeq(numbered);
    var required := MaxSeq(queue) + 1;
    Ensured(queue,
            if StoredNext(seqFile) < required || end > next then Replace(seqFile, Max(end, required), outcome) else seqFile,
            next, end)
  }

  function Entries(q: QueueFile): seq<Entry> {
    if q.Stored? then q.entries else []
  }

  /** `_load_queue`. */
  function Load(s: Store, env: Env): (Store, seq<Item>) {
    if s.queueFile.NoFile? then (s, [])
    else
      var items := ItemsOf(Entries(s.queueFile));
      var e := EnsureSequences(items, s.seqFile, env.loadSeq);
      var pruned := Prune(e.queue, env.now);
      var changed := e.end > e.next || |items| != |Entries(s.queueFile)| || pruned != e.queue;
      (Store(if changed then WriteQueue(s.queueFile, pruned, env.loadQueue) else s.queueFile,
             e.seqFile, s.issued + Range(e.next, e.end)),
       pruned)
  }

  /** `_write_to_queue`. */
  function Send(s: Store, body: string, env: Env): (Store, Item) {
    var (loaded, queue) := Load(s, env);
    var n := NextSeq(loaded.seqFile, queue);
    var item := Item(Number(n), Time(env.now), body);
    (Store(WriteQueue(loaded.queueFile, Prune(queue + [item], env.now), env.sendQueue),
           Replace(loaded.seqFile, n + 1, env.sendSeq),
           loaded.issued + [n]),
     item)
  }

  function After(queue: seq<Item>, cursor: int): seq<Item>
    decreases |queue|
  {
    if queue == [] then []
    else (if Num(queue[0]) > cursor then [queue[0]] else []) + After(queue[1..], cursor)
  }

  function ClampLimit(limit: int): nat {
    if limit < 1 then 1 else if limit > 50 then 50 else limit
  }

  function Take(queue: seq<Item>, n: nat): seq<Item> {
    if |queue| <= n then queue else queue[..n]
  }

  /** `_read_from_queue`: one look of a poll. */
  function Poll(s: Store, cursor: Option<int>, limit: int, env: Env): (Store, seq<Item>) {
    var (s', queue) := Load(s, env);
    (s', Take(if cursor.None? then queue else After(queue, cursor.value), ClampLimit(limit)))
  }

  function Ack(s: Store, upTo: int, env: Env): (Store, nat) {
    var (s', queue) := Load(s, env);
    var remaining := After(queue, upTo);
    (if remaining != queue then s'.(queueFile := WriteQueue(s'.queueFile, remaining, env.sendQueue)) else s', |remaining|)
  }

  // ---- numbers over runs -------------------------------------------------

  datatype Op =
    | OpSend(body: string, env: Env)
    | OpPoll(cursor: Option<int>, limit: int, env: Env)
    | OpAck(upTo: int, env: Env)

  function Step(s: Store, op: Op): Store {
    match op
    case OpSend(b, e) => Send(s, b, e).0
    case OpPoll(c, l, e) => Poll(s, c, l, e).0
    case OpAck(n, e) => Ack(s, n, e).0
  }

  function Run(s: Store, ops: seq<Op>): Store
    decreases |ops|
  {
    if ops == [] then s else Step(Run(s, ops[..|ops| - 1]), ops[|ops| - 1])
  }

  predicate SeqWritesSucceed(op: Op) {
    op.env.loadSeq.Written? && op.env.sendSeq.Written?
  }

  predicate Ascending(ns: seq<int>) {
    forall i, j :: 0 <= i < j < |ns| ==> ns[i] < ns[j]
  }

  /** Numbers were issued in ascending order, all below the stored next one. */
  ghost predicate Numbered(s: Store) {
    Ascending(s.issued) && forall i :: 0 <= i < |s.issued| ==> s.issued[i] < StoredNext(s.seqFile)
  }

  predicate Increasing(queue: seq<Item>) {
    forall i, j :: 0 <= i < j < |queue| ==> Num(queue[i]) < Num(queue[j])
  }

  lemma {:induction false} MaxSeqBounds(items: seq<Item>)
    ensures MaxSeq(items) >= 0
    ensures forall i :: 0 <= i < |items| && ValidSeq(items[i]) ==> Num(items[i]) <= MaxSeq(items)
    decreases |items|
  {
    if items != [] { MaxSeqBounds(items[..|items| - 1]); }
  }

  predicate SameContent(a: Item, b: Item) {
    a.stamp == b.stamp && a.body == b.body
  }

  /** What the repair loop achieves: distinct positive numbers outside `seen`, new
      ones from `next` up, everything else about the items unchanged. */
  ghost predicate Repaired(items: seq<Item>, next: int, seen: set<int>, r: seq<Item>, end: int) {
    && |r| == |items| && next <= end
    && (forall i :: 0 <= i < |r| ==> ValidSeq(r[i]) && Num(r[i]) < end && Num(r[i]) !in seen)
    && (forall i, j :: 0 <= i < j < |r| ==> Num(r[i]) != Num(r[j]))
    && (forall i :: 0 <= i < |r| ==> SameContent(r[i], items[i]))
    && (forall i :: 0 <= i < |r| ==> r[i] == items[i] || Num(r[i]) >= next)
    && (end == next ==> r == items)
  }

  lemma RepairedCons(it: Item, items: seq<Item>, next: int, next': int, seen: set<int>, it': Item, r: seq<Item>, end: int)
    requires Repaired(items, next', seen + {Num(it')}, r, end) && next <= next'
    requires ValidSeq(it') && Num(it') < next' && Num(it') !in seen && SameContent(it', it)
    requires if next' == next then it' == it else Num(it') >= next
    ensures Repaired([it] + items, next, seen, [it'] + r, end)
  {
    var all, all' := [it] + items, [it'] + r;
    assert forall i :: 0 < i < |all'| ==> all'[i] == r[i - 1] && all[i] == items[i - 1];
  }

  lemma {:induction false} RenumberWorks(items: seq<Item>, next: int, seen: set<int>)
    requires next > 0
    requires forall i :: 0 <= i < |items| && ValidSeq(items[i]) ==> Num(items[i]) < next
    requires forall n :: n in seen ==> n < next
    ensures Repaired(items, next, seen, Renumber(items, next, seen).0, Renumber(items, next, seen).1)
    decreases |items|
  {
    if items != [] {
      var it, tail := items[0], items[1..];
      assert items == [it] + tail;
      assert forall i :: 0 <= i < |tail| ==> tail[i] == items[i + 1];
      if !ValidSeq(it) || Num(it) in seen {
        var it' := it.(seqNo := Number(next));
        RenumberWorks(tail, next + 1, seen + {next});
        RepairedCons(it, tail, next, next + 1, seen, it', Renumber(tail, next + 1, seen + {next}).0, Renumber(tail, next + 1, seen + {next}).1);
      } else {
        RenumberWorks(tail, next, seen + {Num(it)});
        RepairedCons(it, tail, next, next, seen, it, Renumber(tail, next, seen + {Num(it)}).0, Renumber(tail, next, seen + {Num(it)}).1);
      }
    }
  }

  lemma {:induction false} InsertIncreasing(it: Item, sorted: seq<Item>)
    requires Increasing(sorted) && forall i :: 0 <= i < |sorted| ==> Num(sorted[i]) != Num(it)
    ensures Increasing(InsertBySeq(it, sorted))
    ensures forall x :: x in InsertBySeq(it, sorted) <==> x == it || x in sorted
    decreases |sorted|
  {
    if sorted != [] && !(Num(it) <= Num(sorted[0])) {
      var head, tail := sorted[0], sorted[1..];
      assert sorted == [head] + tail;
      InsertIncreasing(it, tail);
      var r := InsertBySeq(it, tail);
      forall j | 0 <= j < |r| ensures Num(head) < Num(r[j]) {
        assert r[j] in r;
        assert r[j] == it || r[j] in tail;
      }
    }
  }

  lemma {:induction false} SortIncreasing(items: seq<Item>)
    requires forall i, j :: 0 <= i < j < |items| ==> Num(items[i]) != Num(items[j])
    ensures Increasing(SortBySeq(items)) && |SortBySeq(items)| == |items|
    ensures forall x :: x in SortBySeq(items) <==> x in items
    decreases |items|
  {
    if items != [] {
      var head, tail := items[0], items[1..];
      assert items == [head] + tail;
      SortIncreasing(tail);
      var rest := SortBySeq(tail);
      forall i | 0 <= i < |rest| ensures Num(rest[i]) != Num(head) {
        assert rest[i] in rest;
        assert rest[i] in tail;
      }
      InsertIncreasing(head, rest);
      assert |multiset(SortBySeq(items))| == |multiset(items)|;
    }
  }

  lemma {:induction false} KeepRetainedExact(items: seq<Item>, now: int)
    ensures forall x :: x in KeepRetained(items, now) <==> x in items && Retained(x, now)
    ensures |KeepRetained(items, now)| <= |items|
    decreases |items|
  {
    if items != [] { KeepRetainedExact(items[1..], now); }
  }

  lemma {:induction false} KeepRetainedIncreasing(items: seq<Item>, now: int)
    requires Increasing(items)
    ensures Increasing(KeepRetained(items, now))
    decreases |items|
  {
    if items != [] {
      var head, tail := items[0], items[1..];
      KeepRetainedIncreasing(tail, now);
      KeepRetainedExact(tail, now);
      var r := KeepRetained(tail, now);
      forall j | 0 <= j < |r| ensures Num(head) < Num(r[j]) {
        assert r[j] in r;
        assert r[j] in tail;
      }
    }
  }

  lemma PruneExact(items: seq<Item>, now: int)
    ensures forall x :: x in Prune(items, now) ==> x in items && Retained(x, now)
    ensures |Prune(items, now)| <= QUEUE_MAX_ITEMS
    ensures |items| <= QUEUE_MAX_ITEMS ==> forall x :: x in items && Retained(x, now) ==> x in Prune(items, now)
  {
    KeepRetainedExact(items, now);
  }

  /** Of a queue in ascending order only what is too old is dropped, and beyond that
      what has 500 newer items kept before it. */
  lemma PruneKeepsNewest(items: seq<Item>, now: int)
    requires Increasing(items)
    ensures forall x :: x in items && Retained(x, now) ==>
      (x !in Prune(items, now) <==> |Prune(items, now)| == QUEUE_MAX_ITEMS && forall y :: y in Prune(items, now) ==> Num(x) < Num(y))
  {
    KeepRetainedExact(items, now);
    KeepRetainedIncreasing(items, now);
    var kept, pruned := KeepRetained(items, now), Prune(items, now);
    forall x | x in items && Retained(x, now) && x !in pruned
      ensures |pruned| == QUEUE_MAX_ITEMS && forall y :: y in pruned ==> Num(x) < Num(y)
    {
      var cut := |kept| - QUEUE_MAX_ITEMS;
      assert cut > 0 && pruned == kept[cut..] && x in kept;
      assert kept == kept[..cut] + pruned;
      var i :| 0 <= i < cut && kept[i] == x;
      forall y | y in pruned ensures Num(x) < Num(y) {
        var j :| cut <= j < |kept| && kept[j] == y;
      }
    }
  }

  lemma PruneIncreasing(items: seq<Item>, now: int)
    requires Increasing(items)
    ensures Increasing(Prune(items, now))
  {
    KeepRetainedIncreasing(items, now);
  }

  /** A loaded queue is in strictly ascending order, and the sequence file is past
      all its numbers and past every number issued before or by the load. */
  ghost predicate LoadedOk(s: Store, queue: seq<Item>) {
    && Numbered(s) && Increasing(queue)
    && (forall x :: x in queue ==> 0 < Num(x) < StoredNext(s.seqFile))
  }

  lemma EnsureWorks(items: seq<Item>, seqFile: Option<int>)
    ensures var e := EnsureSequences(items, seqFile, Written);
      && StoredNext(seqFile) <= e.next <= e.end && StoredNext(seqFile) <= StoredNext(e.seqFile)
      && (e.next < e.end ==> e.end <= StoredNext(e.seqFile))
      && Increasing(e.queue) && (forall x :: x in e.queue ==> 0 < Num(x) < StoredNext(e.seqFile))
  {
    var next := NextSeq(seqFile, items);
    MaxSeqBounds(items);
    RenumberWorks(items, next, {});
    var (numbered, end) := Renumber(items, next, {});
    SortedNumbers(numbered);
  }

  lemma SortedNumbers(numbered: seq<Item>)
    requires forall i :: 0 <= i < |numbered| ==> ValidSeq(numbered[i])
    requires forall i, j :: 0 <= i < j < |numbered| ==> Num(numbered[i]) != Num(numbered[j])
    ensures var queue := SortBySeq(numbered);
      Increasing(queue) && forall x :: x in queue ==> 0 < Num(x) <= MaxSeq(queue)
  {
    var queue := SortBySeq(numbered);
    SortIncreasing(numbered);
    MaxSeqBounds(queue);
    forall x | x in queue ensures 0 < Num(x) <= MaxSeq(queue) {
      assert x in numbered;
      var i :| 0 <= i < |queue| && queue[i] == x;
    }
  }

  lemma LoadWorks(s: Store, env: Env)
    requires Numbered(s) && env.loadSeq.Written?
    ensures LoadedOk(Load(s, env).0, Load(s, env).1)
  {
    if !s.queueFile.NoFile? {
      var items := ItemsOf(Entries(s.queueFile));
      var e := EnsureSequences(items, s.seqFile, Written);
      EnsureWorks(items, s.seqFile);
      PruneExact(e.queue, env.now);
      PruneIncreasing(e.queue, env.now);
      AscendingAppend(s.issued, e.next, e.end);
    }
  }

  lemma AscendingAppend(issued: seq<int>, from: int, to: int)
    requires Ascending(issued) && forall i :: 0 <= i < |issued| ==> issued[i] < from
    ensures Ascending(issued + Range(from, to))
    ensures from <= to ==> forall i :: 0 <= i < |issued + Range(from, to)| ==> (issued + Range(from, to))[i] < to || i < |issued|
  {
  }

  lemma SendNumbers(s: Store, body: string, env: Env)
    requires Numbered(s) && env.loadSeq.Written?
    ensures var (s', item) := Send(s, body, env);
      && ValidSeq(item) && s'.issued != [] && Num(item) == s'.issued[|s'.issued| - 1]
      && Ascending(s'.issued)
      && (forall x :: x in Load(s, env).1 ==> Num(x) < Num(item))
      && (Numbered(s') <==> env.sendSeq.Written?)
  {
    LoadWorks(s, env);
    var (loaded, queue) := Load(s, env);
    MaxSeqBounds(queue);
    MaxSeqBelow(queue, StoredNext(loaded.seqFile));
    var n := NextSeq(loaded.seqFile, queue);
    assert n == StoredNext(loaded.seqFile);
    var s' := Send(s, body, env).0;
    assert s'.issued[|s'.issued| - 1] == n;
  }

  lemma {:induction false} MaxSeqBelow(items: seq<Item>, bound: int)
    requires bound > 0 && forall x :: x in items ==> Num(x) < bound
    ensures MaxSeq(items) < bound
    decreases |items|
  {
    if items != [] {
      assert items[|items| - 1] in items;
      MaxSeqBelow(items[..|items| - 1], bound);
    }
  }

  lemma StepNumbered(s: Store, op: Op)
    requires Numbered(s) && SeqWritesSucceed(op)
    ensures Numbered(Step(s, op))
  {
    LoadWorks(s, op.env);
    if op.OpSend? { SendNumbers(s, op.body, op.env); }
  }

  /** From any files at all, over any run in which the sequence file can be written:
      numbers are issued in strictly ascending order, so never twice, and always
      below the stored next number. */
  lemma {:induction false} NeverIssuedTwice(s: Store, ops: seq<Op>)
    requires s.issued == [] && forall op :: op in ops ==> SeqWritesSucceed(op)
    ensures Numbered(Run(s, ops))
    ensures forall i, j :: 0 <= i < j < |Run(s, ops).issued| ==> Run(s, ops).issued[i] != Run(s, ops).issued[j]
    decreases |ops|
  {
    if ops != [] {
      var front, last := ops[..|ops| - 1], ops[|ops| - 1];
      assert last in ops && forall op :: op in front ==> op in ops;
      NeverIssuedTwice(s, front);
      StepNumbered(Run(s, front), last);
    }
  }

  /** Whatever load follows such a run is strictly ascending and below the stored
      next number. */
  lemma LoadedQueueAscends(s: Store, ops: seq<Op>, env: Env)
    requires s.issued == [] && (forall op :: op in ops ==> SeqWritesSucceed(op)) && env.loadSeq.Written?
    ensures LoadedOk(Load(Run(s, ops), env).0, Load(Run(s, ops), env).1)
  {
    NeverIssuedTwice(s, ops);
    LoadWorks(Run(s, ops), env);
  }

  lemma LoadSingle(a: Item, seqFile: Option<int>, issued: seq<int>, env: Env)
    requires Num(a) == 1 && Retained(a, env.now)
    ensures Load(Store(Stored([Mapping(a)]), seqFile, issued), env).1 == [a]
    ensures env.loadSeq.KeptOld? ==>
      Load(Store(Stored([Mapping(a)]), seqFile, issued), env).0 == Store(Stored([Mapping(a)]), seqFile, issued)
  {
    assert [Mapping(a)][1..] == [] && [a][1..] == [] && [a][..0] == [];
    assert ItemsOf([Mapping(a)]) == [a];
    assert MaxSeq([a][..|[a]| - 1]) == 0 && MaxSeq([a]) == 1;
    assert Renumber([a], NextSeq(seqFile, [a]), {}) == ([a], NextSeq(seqFile, [a]));
    assert SortBySeq([a]) == [a] && KeepRetained([a], env.now) == [a];
    assert issued + [] == issued;
  }

  /** Without that assumption the promise fails: if the sequence file of a fresh store
      cannot be written, acknowledging a message frees its number for the next one. */
  lemma FailedSeqWriteReissues(first: string, second: string, now: int)
    ensures var env := Env(now, KeptOld, Written, KeptOld, Written);
      var (s1, a) := Send(Store(NoFile, None, []), first, env);
      var (s2, left) := Ack(s1, Num(a), env);
      Num(a) == 1 && left == 0 && Num(Send(s2, second, env).1) == 1
  {
    var env := Env(now, KeptOld, Written, KeptOld, Written);
    var a := Item(Number(1), Time(now), first);
    assert [] + [a] == [a] && [a][1..] == [];
    assert KeepRetained([a], now) == [a];
    assert EntriesOf([a]) == [Mapping(a)];
    var (s1, a') := Send(Store(NoFile, None, []), first, env);
    assert a' == a && s1.queueFile == Stored([Mapping(a)]) && s1.seqFile == None;
    LoadSingle(a, None, s1.issued, env);
    assert After([a], 1) == [];
    var s2 := Ack(s1, 1, env).0;
    assert s2.queueFile == Stored([]) && s2.seqFile == None;
    assert ItemsOf([]) == [] && Renumber([], 1, {}) == ([], 1);
    assert Load(s2, env).1 == [];
  }
}
