/** Outbound frames to the device: a bounded queue that merges deltas at its tail,
    one writer that aggregates deltas before sending, and connections that replace
    one another. */
module DeviceQueue {
  import opened SafeWrite
  import opened Sequences

  const OUT_QUEUE_MAXSIZE: nat := 64
  const DELTA_AGG_BYTES: nat := 512

  /** A stream delta, or any other frame (by identity). */
  datatype Frame = Delta(msgId: string, text: string, ts: int) | Other(id: nat)

  predicate SameStream(a: Frame, b: Frame) {
    a.Delta? && b.Delta? && a.msgId == b.msgId
  }

  function Joined(a: Frame, b: Frame): Frame
    requires a.Delta? && b.Delta?
  {
    Delta(a.msgId, a.text + b.text, b.ts)
  }

  /** `enqueue_json` on the current queue. */
  function Enqueue(queue: seq<Frame>, f: Frame): (seq<Frame>, bool) {
    if |queue| < OUT_QUEUE_MAXSIZE then (queue + [f], true)
    else if SameStream(queue[|queue| - 1], f)
    then (queue[|queue| - 1 := Joined(queue[|queue| - 1], f)], true)
    else (queue, false)
  }

  function CharBytes(c: char): nat {
    if c as int < 0x80 then 1 else if c as int < 0x800 then 2 else if c as int < 0x10000 then 3 else 4
  }

  /** The length of the UTF-8 encoding (section 3 of RFC 3629). */
  function Utf8Len(text: string): nat
    decreases |text|
  {
    if text == [] then 0 else Utf8Len(text[..|text| - 1]) + CharBytes(text[|text| - 1])
  }

  /** What the writer sends for `item` after its pause, and what it leaves queued. */
  function Aggregate(item: Frame, queue: seq<Frame>): (r: (Frame, seq<Frame>))
    requires item.Delta?
    ensures r.0.Delta? && r.0.msgId == item.msgId && |r.1| <= |queue|
    decreases |queue|
  {
    if queue != [] && SameStream(queue[0], item) && Utf8Len(item.text) < DELTA_AGG_BYTES
    then Aggregate(Joined(item, queue[0]), queue[1..])
    else (item, queue)
  }

  /** A writer task between two suspensions. */
  datatype Phase = Waiting | Pausing(item: Frame) | Sending(item: Frame)

  /** `tasks` holds every writer task that can still run; `writerTask` is the module's
      variable.  `accepted`, `sent` and `failed` are the history of the current
      connection: frames taken by the queue, frames sent, frame in hand when a send
      failed. */
  datatype State = State(
    ws: Option<nat>, queue: Option<seq<Frame>>, tasks: map<nat, Phase>, writerTask: Option<nat>,
    nextWs: nat, nextTask: nat, accepted: seq<Frame>, sent: seq<Frame>, failed: Option<Frame>)

  const INIT := State(None, None, map[], None, 0, 0, [], [], None)

  function Offer(s: State, f: Frame): (State, bool) {
    if s.queue.None? then (s, false)
    else
      var (q, ok) := Enqueue(s.queue.value, f);
      (s.(queue := Some(q), accepted := if ok then s.accepted + [f] else s.accepted), ok)
  }

  /** The head of the writer loop. */
  function Pop(s: State, t: nat): State {
    if t !in s.tasks || !s.tasks[t].Waiting? then s
    else if s.queue.None? then s.(tasks := s.tasks - {t})
    else if s.queue.value == [] then s
    else
      var item := s.queue.value[0];
      s.(queue := Some(s.queue.value[1..]), tasks := s.tasks[t := if item.Delta? then Pausing(item) else Sending(item)])
  }

  /** After the pause: aggregate, start to send. */
  function Wake(s: State, t: nat): State {
    if t !in s.tasks || !s.tasks[t].Pausing? || !s.tasks[t].item.Delta? then s
    else if s.queue.None? then s.(tasks := s.tasks[t := Sending(s.tasks[t].item)])
    else
      var (item, rest) := Aggregate(s.tasks[t].item, s.queue.value);
      s.(queue := Some(rest), tasks := s.tasks[t := Sending(item)])
  }

  /** The send has returned; a failure with a connection ends the task. */
  function Sent(s: State, t: nat, ok: bool): State {
    if t !in s.tasks || !s.tasks[t].Sending? then s
    else if s.ws.Some? && ok then s.(tasks := s.tasks[t := Waiting], sent := s.sent + [s.tasks[t].item])
    else if s.ws.Some? then s.(tasks := s.tasks - {t}, failed := Some(s.tasks[t].item))
    else s.(tasks := s.tasks[t := Waiting])
  }

  function Cancelled(tasks: map<nat, Phase>, writerTask: Option<nat>): map<nat, Phase> {
    if writerTask.Some? then tasks - {writerTask.value} else tasks
  }

  /** A new connection takes over: old writer cancelled, new queue, new writer. */
  function Connect(s: State): State {
    var left := if s.ws.Some? then Cancelled(s.tasks, s.writerTask) else s.tasks;
    State(Some(s.nextWs), Some([]), left[s.nextTask := Waiting], Some(s.nextTask),
          s.nextWs + 1, s.nextTask + 1, [], [], None)
  }

  /** The end of connection `w`, which may have been replaced meanwhile. */
  function Disconnect(s: State, w: nat): State {
    if s.ws == Some(w)
    then s.(ws := None, queue := None, tasks := Cancelled(s.tasks, s.writerTask), writerTask := None)
    else s
  }

  datatype Op = OpOffer(f: Frame) | OpPop(t: nat) | OpWake(t: nat) | OpSent(t: nat, ok: bool) | OpConnect | OpDisconnect(w: nat)

  function Step(s: State, op: Op): State {
    match op
    case OpOffer(f) => Offer(s, f).0
    case OpPop(t) => Pop(s, t)
    case OpWake(t) => Wake(s, t)
    case OpSent(t, ok) => Sent(s, t, ok)
    case OpConnect => Connect(s)
    case OpDisconnect(w) => Disconnect(s, w)
  }

  function Run(ops: seq<Op>): State
    decreases |ops|
  {
    if ops == [] then INIT else Step(Run(ops[..|ops| - 1]), ops[|ops| - 1])
  }

  // ---- events ------------------------------------------------------------

  /** What a frame means to the device: the characters of a stream, or itself. */
  datatype Event = Char(msgId: string, c: char) | Whole(id: nat)

  function Events(f: Frame): seq<Event> {
    match f
    case Other(id) => [Whole(id)]
    case Delta(m, text, _) => seq(|text|, i requires 0 <= i < |text| => Char(m, text[i]))
  }

  function Flatten(frames: seq<Frame>): seq<Event>
    decreases |frames|
  {
    if frames == [] then [] else Flatten(frames[..|frames| - 1]) + Events(frames[|frames| - 1])
  }

  lemma FlattenSnoc(frames: seq<Frame>, f: Frame)
    ensures Flatten(frames + [f]) == Flatten(frames) + Events(f)
  {
    assert (frames + [f])[..|frames|] == frames;
  }

  lemma FlattenAppendOne(a: seq<Frame>, front: seq<Frame>, last: Frame)
    requires Flatten(a + front) == Flatten(a) + Flatten(front)
    ensures Flatten(a + (front + [last])) == Flatten(a) + Flatten(front + [last])
  {
    FlattenSnoc(a + front, last);
    FlattenSnoc(front, last);
    Assoc(a, front, [last]);
    Assoc(Flatten(a), Flatten(front), Events(last));
  }

  lemma {:induction false} FlattenAppend(a: seq<Frame>, b: seq<Frame>)
    ensures Flatten(a + b) == Flatten(a) + Flatten(b)
    decreases |b|
  {
    if b == [] {
      assert a + b == a;
    } else {
      assert b == b[..|b| - 1] + [b[|b| - 1]];
      FlattenAppend(a, b[..|b| - 1]);
      FlattenAppendOne(a, b[..|b| - 1], b[|b| - 1]);
    }
  }

  lemma FlattenOne(f: Frame)
    ensures Flatten([f]) == Events(f)
  {
    assert [f][..0] == [];
  }

  lemma JoinedEvents(a: Frame, b: Frame)
    requires SameStream(a, b)
    ensures Events(Joined(a, b)) == Events(a) + Events(b)
  {
  }

  /** Whether it appends, merges or drops, the queue afterwards means what it meant
      followed by the frame if that was accepted. */
  lemma EnqueueKeepsEvents(queue: seq<Frame>, f: Frame)
    requires |queue| <= OUT_QUEUE_MAXSIZE
    ensures var (q, ok) := Enqueue(queue, f);
      && |q| <= OUT_QUEUE_MAXSIZE
      && Flatten(q) == Flatten(queue) + (if ok then Events(f) else [])
      && (ok <==> |queue| < OUT_QUEUE_MAXSIZE || SameStream(queue[|queue| - 1], f))
  {
    if |queue| < OUT_QUEUE_MAXSIZE {
      FlattenAppend(queue, [f]);
      FlattenOne(f);
    } else if SameStream(queue[|queue| - 1], f) {
      MergeLastKeepsEvents(queue, f);
    }
  }

  lemma MergeLastKeepsEvents(queue: seq<Frame>, f: Frame)
    requires queue != [] && SameStream(queue[|queue| - 1], f)
    ensures Flatten(queue[|queue| - 1 := Joined(queue[|queue| - 1], f)]) == Flatten(queue) + Events(f)
  {
    var n := |queue| - 1;
    var q := queue[n := Joined(queue[n], f)];
    assert q[..n] == queue[..n] && |q| == n + 1;
    JoinedEvents(queue[n], f);
    Assoc(Flatten(queue[..n]), Events(queue[n]), Events(f));
  }

  /** Aggregation moves events from the queue to the item, keeping their order. */
  lemma {:induction false} AggregateKeepsEvents(item: Frame, queue: seq<Frame>)
    requires item.Delta?
    ensures Events(Aggregate(item, queue).0) + Flatten(Aggregate(item, queue).1) == Events(item) + Flatten(queue)
    decreases |queue|
  {
    if queue != [] && SameStream(queue[0], item) && Utf8Len(item.text) < DELTA_AGG_BYTES {
      var head, tail := queue[0], queue[1..];
      AggregateKeepsEvents(Joined(item, head), tail);
      JoinedEvents(item, head);
      assert queue == [head] + tail;
      FlattenAppend([head], tail);
      FlattenOne(head);
      Assoc(Events(item), Events(head), Flatten(tail));
    }
  }

  // ---- conservation over runs --------------------------------------------

  /** The frame the current writer holds, or held when its send failed. */
  function Hand(s: State): seq<Frame> {
    if s.failed.Some? then [s.failed.value]
    else if s.writerTask.Some? && s.writerTask.value in s.tasks && !s.tasks[s.writerTask.value].Waiting?
    then [s.tasks[s.writerTask.value].item]
    else []
  }

  /** At most one writer task can run, the one of the current connection. */
  ghost predicate SingleWriter(s: State) {
    && (forall t :: t in s.tasks ==> s.writerTask == Some(t) && s.ws.Some? && s.failed.None?)
    && (forall t :: t in s.tasks && s.tasks[t].Pausing? ==> s.tasks[t].item.Delta?)
    && (s.ws.Some? <==> s.queue.Some?)
  }

  ghost predicate Conserved(s: State) {
    s.queue.Some? ==>
      && |s.queue.value| <= OUT_QUEUE_MAXSIZE
      && Flatten(s.sent) + Flatten(Hand(s)) + Flatten(s.queue.value) == Flatten(s.accepted)
  }

  lemma StepSingleWriter(s: State, op: Op)
    requires SingleWriter(s)
    ensures SingleWriter(Step(s, op))
  {
  }

  lemma PopMeans(sent: seq<Event>, q: seq<Frame>)
    requires q != []
    ensures sent + [] + Flatten(q) == sent + Flatten([q[0]]) + Flatten(q[1..])
  {
    assert q == [q[0]] + q[1..];
    FlattenAppend([q[0]], q[1..]);
    Assoc(sent, Flatten([q[0]]), Flatten(q[1..]));
    assert sent + [] == sent;
  }

  lemma PopConserves(s: State, t: nat)
    requires SingleWriter(s) && Conserved(s)
    ensures Conserved(Pop(s, t))
  {
    if t in s.tasks && s.tasks[t].Waiting? && s.queue.Some? && s.queue.value != [] {
      var q := s.queue.value;
      PopMeans(Flatten(s.sent), q);
      assert Hand(s) == [] && Hand(Pop(s, t)) == [q[0]];
    }
  }

  lemma WakeConserves(s: State, t: nat)
    requires SingleWriter(s) && Conserved(s)
    ensures Conserved(Wake(s, t))
  {
    if t in s.tasks && s.tasks[t].Pausing? && s.queue.Some? {
      var item, q := s.tasks[t].item, s.queue.value;
      var (r, rest) := Aggregate(item, q);
      AggregateKeepsEvents(item, q);
      FlattenOne(item);
      FlattenOne(r);
      assert Hand(s) == [item] && Hand(Wake(s, t)) == [r];
      Assoc(Flatten(s.sent), Events(item), Flatten(q));
      Assoc(Flatten(s.sent), Events(r), Flatten(rest));
    }
  }

  lemma SentConserves(s: State, t: nat, ok: bool)
    requires SingleWriter(s) && Conserved(s)
    ensures Conserved(Sent(s, t, ok))
  {
    if t in s.tasks && s.tasks[t].Sending? && s.queue.Some? && ok {
      var item := s.tasks[t].item;
      FlattenAppend(s.sent, [item]);
      assert Hand(s) == [item] && Hand(Sent(s, t, ok)) == [];
      assert Flatten(s.sent + [item]) + Flatten([]) == Flatten(s.sent + [item]);
    }
  }

  lemma OfferConserves(s: State, f: Frame)
    requires SingleWriter(s) && Conserved(s)
    ensures Conserved(Offer(s, f).0)
  {
    if s.queue.Some? {
      EnqueueKeepsEvents(s.queue.value, f);
      FlattenAppend(s.accepted, [f]);
      FlattenOne(f);
      Assoc(Flatten(s.sent) + Flatten(Hand(s)), Flatten(s.queue.value), Events(f));
    }
  }

  lemma StepConserves(s: State, op: Op)
    requires SingleWriter(s) && Conserved(s)
    ensures Conserved(Step(s, op))
  {
    match op
    case OpOffer(f) => OfferConserves(s, f);
    case OpPop(t) => PopConserves(s, t);
    case OpWake(t) => WakeConserves(s, t);
    case OpSent(t, ok) => SentConserves(s, t, ok);
    case OpConnect =>
    case OpDisconnect(w) =>
  }

  /** In every run: one writer at most, a queue of at most 64 frames, and for the
      current connection what was sent, then the frame in hand, then the queue mean
      exactly what the queue accepted, in order. */
  lemma {:induction false} NothingLostOrReordered(ops: seq<Op>)
    ensures SingleWriter(Run(ops)) && Conserved(Run(ops))
    decreases |ops|
  {
    if ops != [] {
      NothingLostOrReordered(ops[..|ops| - 1]);
      StepSingleWriter(Run(ops[..|ops| - 1]), ops[|ops| - 1]);
      StepConserves(Run(ops[..|ops| - 1]), ops[|ops| - 1]);
    }
  }

  /** Once the writer has drained the queue without a failure, the device has been
      sent exactly what was accepted. */
  lemma DrainedMeansDelivered(ops: seq<Op>)
    requires Run(ops).queue == Some([]) && Hand(Run(ops)) == []
    ensures Flatten(Run(ops).sent) == Flatten(Run(ops).accepted)
  {
    NothingLostOrReordered(ops);
  }

  // ---- size of an aggregate ----------------------------------------------

  lemma {:induction false} Utf8LenAppend(a: string, b: string)
    ensures Utf8Len(a + b) == Utf8Len(a) + Utf8Len(b)
    decreases |b|
  {
    if b == [] {
      assert a + b == a;
    } else {
      assert (a + b)[..|a + b| - 1] == a + b[..|b| - 1];
      Utf8LenAppend(a, b[..|b| - 1]);
    }
  }

  function Size(f: Frame): nat {
    if f.Delta? then Utf8Len(f.text) else 0
  }

  lemma JoinedSize(a: Frame, b: Frame)
    requires a.Delta? && b.Delta?
    ensures Size(Joined(a, b)) == Size(a) + Size(b)
  {
    Utf8LenAppend(a.text, b.text);
  }

  /** Absorbing queued deltas of at most `bound` bytes: the size is checked before a
      frame is absorbed, not after, and the queue is finite. */
  lemma {:induction false} AggregateSize(item: Frame, queue: seq<Frame>, bound: nat)
    requires item.Delta? && forall f :: f in queue ==> Size(f) <= bound
    ensures Size(Aggregate(item, queue).0) <= Size(item) + |queue| * bound
    ensures Size(item) <= DELTA_AGG_BYTES - 1 + bound ==> Size(Aggregate(item, queue).0) <= DELTA_AGG_BYTES - 1 + bound
    decreases |queue|
  {
    if queue != [] && SameStream(queue[0], item) && Utf8Len(item.text) < DELTA_AGG_BYTES {
      JoinedSize(item, queue[0]);
      AggregateSize(Joined(item, queue[0]), queue[1..], bound);
      assert Size(item) + bound + (|queue| - 1) * bound == Size(item) + |queue| * bound;
    } else {
      assert |queue| * bound >= 0;
    }
  }

  // ---- the size limit over runs ------------------------------------------

  predicate SmallOffer(op: Op, bound: nat) {
    op.OpOffer? ==> Size(op.f) <= bound
  }

  /** An offer that finds the queue full and its own stream at the tail. */
  predicate MergesTail(s: State, op: Op) {
    && op.OpOffer? && s.queue.Some? && |s.queue.value| >= OUT_QUEUE_MAXSIZE
    && SameStream(s.queue.value[|s.queue.value| - 1], op.f)
  }

  /** Every delta offered has at most `bound` bytes. */
  predicate SmallOffers(ops: seq<Op>, bound: nat)
    decreases |ops|
  {
    ops != [] ==> SmallOffers(ops[..|ops| - 1], bound) && SmallOffer(ops[|ops| - 1], bound)
  }

  /** No offer was merged into the tail. */
  predicate NoMerges(ops: seq<Op>)
    decreases |ops|
  {
    ops != [] ==> NoMerges(ops[..|ops| - 1]) && !MergesTail(Run(ops[..|ops| - 1]), ops[|ops| - 1])
  }

  /** No frame sent, being sent or failed to be sent has more than n bytes. */
  ghost predicate SentWithin(s: State, n: nat) {
    && (forall f :: f in s.sent ==> Size(f) <= n)
    && (forall t :: t in s.tasks && s.tasks[t].Sending? ==> Size(s.tasks[t].item) <= n)
    && (s.failed.Some? ==> Size(s.failed.value) <= n)
  }

  ghost predicate HeldWithin(s: State, bound: nat) {
    && (s.queue.Some? ==> |s.queue.value| <= OUT_QUEUE_MAXSIZE && forall f :: f in s.queue.value ==> Size(f) <= bound)
    && (forall t :: t in s.tasks && s.tasks[t].Pausing? ==> Size(s.tasks[t].item) <= bound)
  }

  lemma WakeSize(item: Frame, queue: seq<Frame>, bound: nat)
    requires item.Delta? && Size(item) <= bound && |queue| <= OUT_QUEUE_MAXSIZE && forall f :: f in queue ==> Size(f) <= bound
    ensures Size(Aggregate(item, queue).0) <= 65 * bound && Size(Aggregate(item, queue).0) <= DELTA_AGG_BYTES - 1 + bound
    ensures forall f :: f in Aggregate(item, queue).1 ==> f in queue
  {
    AggregateSize(item, queue, bound);
    AggregateRest(item, queue);
    AtMostFull(|queue|, bound);
  }

  lemma AtMostFull(n: nat, bound: nat)
    requires n <= OUT_QUEUE_MAXSIZE
    ensures bound + n * bound <= 65 * bound
  {
    assert (OUT_QUEUE_MAXSIZE - n) * bound >= 0;
  }

  lemma {:induction false} AggregateRest(item: Frame, queue: seq<Frame>)
    requires item.Delta?
    ensures forall f :: f in Aggregate(item, queue).1 ==> f in queue
    decreases |queue|
  {
    if queue != [] && SameStream(queue[0], item) && Utf8Len(item.text) < DELTA_AGG_BYTES {
      AggregateRest(Joined(item, queue[0]), queue[1..]);
    }
  }

  lemma StepSizes(s: State, op: Op, bound: nat, n: nat)
    requires HeldWithin(s, bound) && SentWithin(s, n) && SmallOffer(op, bound) && !MergesTail(s, op)
    requires bound <= n
    requires forall item: Frame, queue: seq<Frame> ::
      item.Delta? && Size(item) <= bound && |queue| <= OUT_QUEUE_MAXSIZE && (forall f :: f in queue ==> Size(f) <= bound)
      ==> Size(Aggregate(item, queue).0) <= n
    ensures HeldWithin(Step(s, op), bound) && SentWithin(Step(s, op), n)
  {
    if op.OpWake? && op.t in s.tasks && s.tasks[op.t].Pausing? && s.tasks[op.t].item.Delta? && s.queue.Some? {
      AggregateRest(s.tasks[op.t].item, s.queue.value);
    }
  }

  /** While no offer is merged into the tail, deltas of at most `bound` bytes are sent
      in frames of at most 65 * bound and at most 511 + bound bytes: the frame in hand
      and a full queue. */
  lemma {:induction false} SizeWithoutMerges(ops: seq<Op>, bound: nat, n: nat)
    requires SmallOffers(ops, bound) && NoMerges(ops)
    requires n == if 65 * bound <= DELTA_AGG_BYTES - 1 + bound then 65 * bound else DELTA_AGG_BYTES - 1 + bound
    ensures HeldWithin(Run(ops), bound) && SentWithin(Run(ops), n)
    decreases |ops|
  {
    if ops != [] {
      SizeWithoutMerges(ops[..|ops| - 1], bound, n);
      forall item: Frame, queue: seq<Frame> |
        item.Delta? && Size(item) <= bound && |queue| <= OUT_QUEUE_MAXSIZE && (forall f :: f in queue ==> Size(f) <= bound)
        ensures Size(Aggregate(item, queue).0) <= n
      {
        WakeSize(item, queue, bound);
      }
      StepSizes(Run(ops[..|ops| - 1]), ops[|ops| - 1], bound, n);
    }
  }

  // ---- runs that break it ------------------------------------------------

  function Repeat(c: char, n: nat): string {
    seq(n, i => c)
  }

  lemma {:induction false} RepeatLen(n: nat)
    ensures Utf8Len(Repeat('a', n)) == n
  {
    if n > 0 {
      RepeatLen(n - 1);
      assert Repeat('a', n)[..n - 1] == Repeat('a', n - 1);
    }
  }

  /** A delta of the one stream the runs below use. */
  function As(n: nat): Frame {
    Delta("m", Repeat('a', n), 0)
  }

  lemma SizeOfAs(n: nat)
    ensures Size(As(n)) == n
  {
    RepeatLen(n);
  }

  function Copies(n: nat, size: nat): seq<Frame> {
    seq(n, i => As(size))
  }

  function Offers(n: nat, size: nat): seq<Op> {
    seq(n, i => OpOffer(As(size)))
  }

  lemma RunSnoc(ops: seq<Op>, op: Op)
    ensures Run(ops + [op]) == Step(Run(ops), op)
  {
    assert (ops + [op])[..|ops|] == ops;
  }

  lemma QuietSnoc(ops: seq<Op>, op: Op, bound: nat)
    ensures SmallOffers(ops + [op], bound) <==> SmallOffers(ops, bound) && SmallOffer(op, bound)
    ensures NoMerges(ops + [op]) <==> NoMerges(ops) && !MergesTail(Run(ops), op)
  {
    assert (ops + [op])[..|ops|] == ops;
  }

  /** What a run looks like but for the history of accepted frames. */
  predicate Looks(s: State, queue: seq<Frame>, phase: Phase, sent: seq<Frame>) {
    s.queue == Some(queue) && s.ws.Some? && 0 in s.tasks && s.tasks[0] == phase && s.sent == sent
  }

  /** Offers that fit are queued one by one. */
  lemma {:induction false} OffersQueue(ops: seq<Op>, n: nat, size: nat, bound: nat, queue: seq<Frame>, phase: Phase)
    requires Looks(Run(ops), queue, phase, []) && |queue| + n <= OUT_QUEUE_MAXSIZE && size <= bound
    ensures Looks(Run(ops + Offers(n, size)), queue + Copies(n, size), phase, [])
    ensures SmallOffers(ops, bound) ==> SmallOffers(ops + Offers(n, size), bound)
    ensures NoMerges(ops) ==> NoMerges(ops + Offers(n, size))
  {
    if n == 0 {
      assert ops + Offers(n, size) == ops && queue + Copies(n, size) == queue;
    } else {
      OffersQueue(ops, n - 1, size, bound, queue, phase);
      var before, op := ops + Offers(n - 1, size), OpOffer(As(size));
      assert ops + Offers(n, size) == before + [op];
      assert queue + Copies(n, size) == (queue + Copies(n - 1, size)) + [As(size)];
      SizeOfAs(size);
      RunSnoc(before, op);
      QuietSnoc(before, op, bound);
    }
  }

  /** Offers to a full queue grow its tail. */
  lemma {:induction false} OffersMerge(ops: seq<Op>, n: nat, queue: seq<Frame>, tail: nat, phase: Phase)
    requires Looks(Run(ops), queue + [As(tail)], phase, []) && |queue| + 1 == OUT_QUEUE_MAXSIZE
    ensures Looks(Run(ops + Offers(n, 1)), queue + [As(tail + n)], phase, [])
    ensures SmallOffers(ops, 1) ==> SmallOffers(ops + Offers(n, 1), 1)
  {
    if n == 0 {
      assert ops + Offers(n, 1) == ops;
    } else {
      OffersMerge(ops, n - 1, queue, tail, phase);
      var before, op := ops + Offers(n - 1, 1), OpOffer(As(1));
      assert ops + Offers(n, 1) == before + [op];
      assert Joined(As(tail + n - 1), As(1)) == As(tail + n);
      assert (queue + [As(tail + n - 1)])[|queue| := As(tail + n)] == queue + [As(tail + n)];
      SizeOfAs(1);
      RunSnoc(before, op);
      QuietSnoc(before, op, 1);
    }
  }

  /** A frame in hand absorbs equal deltas while it is below the limit. */
  lemma {:induction false} AbsorbsCopies(item: nat, n: nat, size: nat, rest: seq<Frame>)
    requires n > 0 ==> item + (n - 1) * size < DELTA_AGG_BYTES
    ensures Aggregate(As(item), Copies(n, size) + rest) == Aggregate(As(item + n * size), rest)
    decreases n
  {
    if n == 0 {
      assert Copies(n, size) + rest == rest;
    } else {
      var queue := Copies(n, size) + rest;
      assert queue[0] == As(size) && queue[1..] == Copies(n - 1, size) + rest;
      assert Joined(As(item), As(size)) == As(item + size);
      SizeOfAs(item);
      assert item + (n - 1) * size == item + size + (n - 2) * size;
      assert (n - 1) * size >= 0;
      AbsorbsCopies(item + size, n - 1, size, rest);
      assert item + size + (n - 1) * size == item + n * size;
    }
  }

  /** Waking with this frame in hand and this queue sends one frame of `total` bytes. */
  lemma WakeAndSend(ops: seq<Op>, item: nat, queue: seq<Frame>, total: nat, bound: nat)
    requires Looks(Run(ops), queue, Pausing(As(item)), [])
    requires Aggregate(As(item), queue).0 == As(total)
    ensures var all := ops + [OpWake(0)] + [OpSent(0, true)];
      && Run(all).sent == [As(total)]
      && (SmallOffers(ops, bound) ==> SmallOffers(all, bound)) && (NoMerges(ops) ==> NoMerges(all))
  {
    RunSnoc(ops, OpWake(0));
    RunSnoc(ops + [OpWake(0)], OpSent(0, true));
    QuietSnoc(ops, OpWake(0), bound);
    QuietSnoc(ops + [OpWake(0)], OpSent(0, true), bound);
    assert Looks(Run(ops + [OpWake(0)]), Aggregate(As(item), queue).1, Sending(As(total)), []);
  }

  lemma Connected(bound: nat)
    ensures Looks(Run([OpConnect]), [], Waiting, []) && SmallOffers([OpConnect], bound) && NoMerges([OpConnect])
  {
    RunSnoc([], OpConnect);
    QuietSnoc([], OpConnect, bound);
    assert [] + [OpConnect] == [OpConnect];
  }

  lemma Popped(ops: seq<Op>, item: nat, rest: seq<Frame>, bound: nat)
    requires Looks(Run(ops), [As(item)] + rest, Waiting, [])
    ensures Looks(Run(ops + [OpPop(0)]), rest, Pausing(As(item)), [])
    ensures SmallOffers(ops, bound) ==> SmallOffers(ops + [OpPop(0)], bound)
    ensures NoMerges(ops) ==> NoMerges(ops + [OpPop(0)])
  {
    RunSnoc(ops, OpPop(0));
    QuietSnoc(ops, OpPop(0), bound);
    assert ([As(item)] + rest)[1..] == rest;
  }

  /** The writer takes a delta of seven bytes, 64 of eight follow during its pause. */
  const EIGHTS: seq<Op> := [OpConnect] + Offers(1, 7) + [OpPop(0)] + Offers(64, 8) + [OpWake(0)] + [OpSent(0, true)]

  lemma EightsBreakLimit(bound: nat)
    requires bound >= 8
    ensures SmallOffers(EIGHTS, bound) && NoMerges(EIGHTS) && Run(EIGHTS).sent == [As(519)]
  {
    Connected(bound);
    OffersQueue([OpConnect], 1, 7, bound, [], Waiting);
    var first := [OpConnect] + Offers(1, 7);
    assert [] + Copies(1, 7) == [As(7)] + [];
    Popped(first, 7, [], bound);
    OffersQueue(first + [OpPop(0)], 64, 8, bound, [], Pausing(As(7)));
    assert [] + Copies(64, 8) == Copies(64, 8) + [];
    AbsorbsCopies(7, 64, 8, []);
    WakeAndSend(first + [OpPop(0)] + Offers(64, 8), 7, Copies(64, 8) + [], 519, bound);
  }

  /** 513 deltas of one byte: 63 are queued, the rest merge into the tail. */
  const SINGLES: seq<Op> := [OpConnect] + Offers(64, 1) + Offers(449, 1) + [OpPop(0)] + [OpWake(0)] + [OpSent(0, true)]

  lemma SinglesBreakLimit()
    ensures SmallOffers(SINGLES, 1) && Run(SINGLES).sent == [As(513)]
  {
    Connected(1);
    OffersQueue([OpConnect], 64, 1, 1, [], Waiting);
    var filled := [OpConnect] + Offers(64, 1);
    assert [] + Copies(64, 1) == Copies(63, 1) + [As(1)];
    OffersMerge(filled, 449, Copies(63, 1), 1, Waiting);
    var merged := filled + Offers(449, 1);
    assert Copies(63, 1) + [As(450)] == [As(1)] + (Copies(62, 1) + [As(450)]);
    Popped(merged, 1, Copies(62, 1) + [As(450)], 1);
    AbsorbsCopies(1, 62, 1, [As(450)]);
    AbsorbsCopies(63, 1, 450, []);
    assert Copies(1, 450) + [] == [As(450)];
    WakeAndSend(merged + [OpPop(0)], 1, Copies(62, 1) + [As(450)], 513, 1);
  }

  lemma {:induction false} SmallerOffers(ops: seq<Op>, a: nat, b: nat)
    requires SmallOffers(ops, a) && a <= b
    ensures SmallOffers(ops, b)
    decreases |ops|
  {
    if ops != [] { SmallerOffers(ops[..|ops| - 1], a, b); }
  }

  lemma NotWithin(s: State, total: nat, n: nat)
    requires s.sent == [As(total)] && total > n
    ensures !SentWithin(s, n)
  {
    SizeOfAs(total);
    assert s.sent[0] in s.sent;
  }

  ghost predicate KeepsLimit(ops: seq<Op>) {
    SentWithin(Run(ops), DELTA_AGG_BYTES)
  }

  /** The stated limit of 512 bytes: while no offer is merged into the tail it holds in
      every run with offered deltas of at most `bound` bytes exactly when `bound` is at
      most seven, because at most 65 deltas meet in one frame. */
  lemma LimitWithoutMerges(bound: nat)
    ensures (forall ops: seq<Op> :: SmallOffers(ops, bound) && NoMerges(ops) ==> KeepsLimit(ops)) <==> bound <= 7
  {
    if bound <= 7 {
      forall ops: seq<Op> | SmallOffers(ops, bound) && NoMerges(ops) ensures KeepsLimit(ops) {
        SizeWithoutMerges(ops, bound, 65 * bound);
      }
    } else {
      EightsBreakLimit(bound);
      NotWithin(Run(EIGHTS), 519, DELTA_AGG_BYTES);
      assert !KeepsLimit(EIGHTS);
    }
  }

  /** With tail merges it holds in every run only if deltas are empty. */
  lemma LimitWithMerges(bound: nat)
    ensures (forall ops: seq<Op> :: SmallOffers(ops, bound) ==> KeepsLimit(ops)) <==> bound == 0
  {
    if bound == 0 {
      forall ops: seq<Op> | SmallOffers(ops, 0) ensures KeepsLimit(ops) { EmptyOffers(ops); }
    } else {
      SinglesBreakLimit();
      SmallerOffers(SINGLES, 1, bound);
      NotWithin(Run(SINGLES), 513, DELTA_AGG_BYTES);
      assert !KeepsLimit(SINGLES);
    }
  }

  lemma StepEmpty(s: State, op: Op)
    requires HeldWithin(s, 0) && SentWithin(s, 0) && SmallOffer(op, 0)
    ensures HeldWithin(Step(s, op), 0) && SentWithin(Step(s, op), 0)
  {
    if MergesTail(s, op) {
      var queue := s.queue.value;
      assert queue[|queue| - 1] in queue;
      JoinedSize(queue[|queue| - 1], op.f);
    } else {
      forall item: Frame, queue: seq<Frame> |
        item.Delta? && Size(item) <= 0 && |queue| <= OUT_QUEUE_MAXSIZE && (forall f :: f in queue ==> Size(f) <= 0)
        ensures Size(Aggregate(item, queue).0) <= 0
      {
        WakeSize(item, queue, 0);
      }
      StepSizes(s, op, 0, 0);
    }
  }

  lemma {:induction false} EmptyOffers(ops: seq<Op>)
    requires SmallOffers(ops, 0)
    ensures HeldWithin(Run(ops), 0) && SentWithin(Run(ops), 0)
    decreases |ops|
  {
    if ops != [] {
      EmptyOffers(ops[..|ops| - 1]);
      StepEmpty(Run(ops[..|ops| - 1]), ops[|ops| - 1]);
    }
  }
}
