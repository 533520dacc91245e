/** Progress of the writer: it takes the head of the queue, absorbs all it may, and
    drains what was accepted; what a connection's begin and end leave. */
module DeviceProgress {
  import opened SafeWrite
  import opened Sequences
  import opened DeviceQueue

  /** A connection with its writer task running. */
  ghost predicate Connected(s: State, w: nat) {
    s.ws.Some? && s.writerTask == Some(w) && w in s.tasks
  }

  // ---- one step of the writer --------------------------------------------

  /** A waiting writer takes the head of a non-empty queue, whatever frame it is. */
  lemma WriterTakesHead(ops: seq<Op>, w: nat, f: Frame, rest: seq<Frame>)
    requires Connected(Run(ops), w) && Run(ops).tasks[w].Waiting? && Run(ops).queue == Some([f] + rest)
    ensures var s, after := Run(ops), Run(ops + [OpPop(w)]);
      && after.queue == Some(rest) && Hand(after) == [f]
      && after.tasks == s.tasks[w := if f.Delta? then Pausing(f) else Sending(f)]
      && after.sent == s.sent && after.accepted == s.accepted && Connected(after, w)
  {
    NothingLostOrReordered(ops);
    assert (ops + [OpPop(w)])[..|ops|] == ops;
    assert ([f] + rest)[1..] == rest;
  }

  function Texts(queue: seq<Frame>): string
    decreases |queue|
  {
    if queue == [] then "" else (if queue[0].Delta? then queue[0].text else "") + Texts(queue[1..])
  }

  /** `r` is `item` with the first n frames of the queue absorbed, the last of which
      gives the time. */
  ghost predicate Absorbed(item: Frame, queue: seq<Frame>, n: nat, r: Frame)
    requires n <= |queue|
  {
    && (forall i :: 0 <= i < n ==> SameStream(queue[i], item))
    && item.Delta? && r == Delta(item.msgId, item.text + Texts(queue[..n]), if n == 0 then item.ts else queue[n - 1].ts)
  }

  /** Nothing more may be absorbed after n frames. */
  ghost predicate Stops(item: Frame, queue: seq<Frame>, n: nat)
    requires n <= |queue| && item.Delta?
  {
    n == |queue| || !SameStream(queue[n], item) || Utf8Len(item.text + Texts(queue[..n])) >= DELTA_AGG_BYTES
  }

  ghost predicate StopsFirst(item: Frame, queue: seq<Frame>, n: nat)
    requires n <= |queue| && item.Delta?
  {
    Stops(item, queue, n) && forall i :: 0 <= i < n ==> !Stops(item, queue, i)
  }

  lemma TextsCons(item: Frame, queue: seq<Frame>, i: nat)
    requires item.Delta? && queue != [] && SameStream(queue[0], item) && 1 <= i <= |queue|
    ensures item.text + Texts(queue[..i]) == Joined(item, queue[0]).text + Texts(queue[1..][..i - 1])
  {
    assert queue[..i][1..] == queue[1..][..i - 1];
    Assoc(item.text, queue[0].text, Texts(queue[1..][..i - 1]));
  }

  lemma StopsCons(item: Frame, queue: seq<Frame>, i: nat)
    requires item.Delta? && queue != [] && SameStream(queue[0], item) && 1 <= i <= |queue|
    ensures Stops(item, queue, i) <==> Stops(Joined(item, queue[0]), queue[1..], i - 1)
  {
    TextsCons(item, queue, i);
  }

  /** Aggregation absorbs frames up to the first point where the queue is empty, another
      frame follows, or the text has 512 bytes; there is exactly one such point. */
  lemma {:induction false} AggregateExact(item: Frame, queue: seq<Frame>) returns (n: nat)
    requires item.Delta?
    ensures n <= |queue| && StopsFirst(item, queue, n) && Absorbed(item, queue, n, Aggregate(item, queue).0)
    ensures Aggregate(item, queue).1 == queue[n..]
    decreases |queue|
  {
    assert item.text + Texts(queue[..0]) == item.text;
    if queue != [] && SameStream(queue[0], item) && Utf8Len(item.text) < DELTA_AGG_BYTES {
      var joined, tail := Joined(item, queue[0]), queue[1..];
      var m := AggregateExact(joined, tail);
      n := m + 1;
      TextsCons(item, queue, n);
      StopsCons(item, queue, n);
      forall i | 0 <= i < n ensures !Stops(item, queue, i) {
        if i > 0 {
          StopsCons(item, queue, i);
          assert !Stops(joined, tail, i - 1);
        }
      }
      forall i | 0 <= i < n ensures SameStream(queue[i], item) {
        if i > 0 { assert SameStream(tail[i - 1], joined); }
      }
    } else {
      n := 0;
    }
  }

  lemma StopsOnce(item: Frame, queue: seq<Frame>, n: nat, m: nat)
    requires item.Delta? && n <= |queue| && m <= |queue| && StopsFirst(item, queue, n) && StopsFirst(item, queue, m)
    ensures n == m
  {
  }

  /** After its pause the writer sends what that gives, and the rest stays queued. */
  lemma WriterAbsorbs(ops: seq<Op>, w: nat, item: Frame, n: nat)
    requires Connected(Run(ops), w) && Run(ops).tasks[w] == Pausing(item)
    ensures item.Delta? && Run(ops).queue.Some?
    ensures var queue := Run(ops).queue.value; var after := Run(ops + [OpWake(w)]);
      n <= |queue| && StopsFirst(item, queue, n) ==>
        && after.queue == Some(queue[n..]) && after.tasks[w].Sending? && Absorbed(item, queue, n, after.tasks[w].item)
        && after.sent == Run(ops).sent && after.accepted == Run(ops).accepted && Connected(after, w)
  {
    NothingLostOrReordered(ops);
    assert (ops + [OpWake(w)])[..|ops|] == ops;
    var queue := Run(ops).queue.value;
    var m := AggregateExact(item, queue);
    if n <= |queue| && StopsFirst(item, queue, n) { StopsOnce(item, queue, n, m); }
  }

  /** A frame merged into the tail of a full queue lengthens the last delta and gives it
      its time; otherwise an accepted frame is the new tail. */
  lemma MergeExact(queue: seq<Frame>, f: Frame)
    requires |queue| <= OUT_QUEUE_MAXSIZE && Enqueue(queue, f).1
    ensures var q := Enqueue(queue, f).0;
      && (|queue| < OUT_QUEUE_MAXSIZE ==> q == queue + [f])
      && (|queue| == OUT_QUEUE_MAXSIZE ==> SameStream(queue[|queue| - 1], f))
      && (|queue| == OUT_QUEUE_MAXSIZE ==> q == queue[..|queue| - 1] + [Delta(f.msgId, queue[|queue| - 1].text + f.text, f.ts)])
  {
  }

  // ---- draining ----------------------------------------------------------

  /** How many steps the writer has before it at most. */
  function Left(s: State, w: nat): nat {
    if w !in s.tasks || s.queue.None? then 0
    else 3 * |s.queue.value| + match s.tasks[w] case Waiting => 0 case Pausing(_) => 2 case Sending(_) => 1
  }

  ghost predicate Drained(s: State, w: nat, accepted: seq<Frame>) {
    && Connected(s, w) && s.queue == Some([]) && Hand(s) == [] && s.accepted == accepted
    && Flatten(s.sent) == Flatten(accepted)
  }

  lemma NothingLeft(ops: seq<Op>, w: nat)
    requires Connected(Run(ops), w) && Left(Run(ops), w) == 0
    ensures Drained(Run(ops), w, Run(ops).accepted)
  {
    NothingLostOrReordered(ops);
    DrainedMeansDelivered(ops);
  }

  predicate WriterOp(op: Op, w: nat) {
    op == OpPop(w) || op == OpWake(w) || op == OpSent(w, true)
  }

  /** The step that the writer's phase calls for. */
  function NextOp(s: State, w: nat): Op
    requires w in s.tasks
  {
    match s.tasks[w] case Waiting => OpPop(w) case Pausing(_) => OpWake(w) case Sending(_) => OpSent(w, true)
  }

  ghost predicate Advanced(s: State, after: State, w: nat) {
    Connected(after, w) && after.accepted == s.accepted && (Left(s, w) > 0 ==> Left(after, w) < Left(s, w))
  }

  lemma PopAdvances(s: State, w: nat)
    requires SingleWriter(s) && Connected(s, w) && s.tasks[w].Waiting?
    ensures Advanced(s, Pop(s, w), w)
  {
  }

  lemma WakeAdvances(s: State, w: nat)
    requires SingleWriter(s) && Connected(s, w) && s.tasks[w].Pausing?
    ensures Advanced(s, Wake(s, w), w)
  {
  }

  lemma SentAdvances(s: State, w: nat)
    requires SingleWriter(s) && Connected(s, w) && s.tasks[w].Sending?
    ensures Advanced(s, Sent(s, w, true), w)
  {
  }

  lemma WriterAdvances(ops: seq<Op>, w: nat)
    requires Connected(Run(ops), w)
    ensures Advanced(Run(ops), Run(ops + [NextOp(Run(ops), w)]), w)
  {
    NothingLostOrReordered(ops);
    var s := Run(ops);
    assert (ops + [NextOp(s, w)])[..|ops|] == ops;
    match s.tasks[w]
    case Waiting => PopAdvances(s, w);
    case Pausing(_) => WakeAdvances(s, w);
    case Sending(_) => SentAdvances(s, w);
  }

  /** From every reachable state with a connection and its writer alive, a bounded number
      of the writer's own steps with successful sends empties queue and hand: the device
      has then been sent exactly what was accepted. */
  lemma {:induction false} WriterDrains(ops: seq<Op>, w: nat) returns (more: seq<Op>)
    requires Connected(Run(ops), w)
    ensures |more| <= Left(Run(ops), w) && forall i :: 0 <= i < |more| ==> WriterOp(more[i], w)
    ensures Drained(Run(ops + more), w, Run(ops).accepted)
    decreases Left(Run(ops), w)
  {
    if Left(Run(ops), w) == 0 {
      more := [];
      assert ops + more == ops;
      NothingLeft(ops, w);
    } else {
      var op := NextOp(Run(ops), w);
      WriterAdvances(ops, w);
      var rest := WriterDrains(ops + [op], w);
      more := [op] + rest;
      Assoc(ops, [op], rest);
    }
  }

  // ---- connections -------------------------------------------------------

  /** Every new connection begins with an empty queue and one waiting writer, and a name
      that no connection had. */
  lemma ConnectBegins(ops: seq<Op>)
    ensures var s, after := Run(ops), Run(ops + [OpConnect]);
      && after.ws == Some(s.nextWs) && s.nextWs < after.nextWs && after.queue == Some([]) && after.accepted == after.sent == []
      && after.writerTask == Some(s.nextTask) && after.tasks == map[s.nextTask := Waiting]
  {
    NothingLostOrReordered(ops);
    assert (ops + [OpConnect])[..|ops|] == ops;
  }

  ghost predicate Named(s: State) {
    s.ws.Some? ==> s.ws.value < s.nextWs
  }

  lemma {:induction false} RunNamed(ops: seq<Op>)
    ensures Named(Run(ops))
    decreases |ops|
  {
    if ops != [] { RunNamed(ops[..|ops| - 1]); }
  }

  /** The end of the current connection stops its writer and takes the queue away, so that
      offers are refused until the next one begins; the end of a connection that was
      replaced changes nothing. */
  lemma DisconnectEnds(ops: seq<Op>, w: nat, f: Frame)
    ensures var s, after := Run(ops), Run(ops + [OpDisconnect(w)]);
      && (s.ws == Some(w) ==> after.ws == None && after.queue == None && after.tasks == map[] && !Offer(after, f).1)
      && (s.ws != Some(w) ==> after == s)
      && after.ws != Some(w) && Run(ops + [OpDisconnect(w)] + [OpConnect]).ws == Some(s.nextWs)
      && (w < s.nextWs ==> Run(ops + [OpDisconnect(w)] + [OpConnect]).ws != Some(w))
  {
    NothingLostOrReordered(ops);
    RunNamed(ops);
    var ended := ops + [OpDisconnect(w)];
    assert ended[..|ops|] == ops && (ended + [OpConnect])[..|ended|] == ended;
  }
}
