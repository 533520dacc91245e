/** The connection manager as module state updated in place; each method is one
    stretch of code between suspensions, proved against its transition. */
module DeviceWs {
  import opened SafeWrite
  import opened DeviceQueue

  class Manager {
    var currentWs: Option<nat>
    var outQueue: Option<seq<Frame>>
    var writerTask: Option<nat>
    var tasks: map<nat, Phase>
    var nextWs: nat
    var nextTask: nat
    ghost var accepted: seq<Frame>
    ghost var sent: seq<Frame>
    ghost var failed: Option<Frame>

    ghost function Abs(): State
      reads this
    {
      State(currentWs, outQueue, tasks, writerTask, nextWs, nextTask, accepted, sent, failed)
    }

    constructor ()
      ensures Abs() == INIT
    {
      currentWs, outQueue, writerTask, tasks, nextWs, nextTask := None, None, None, map[], 0, 0;
      accepted, sent, failed := [], [], None;
    }

    method EnqueueJson(f: Frame) returns (ok: bool)
      modifies this
      ensures (Abs(), ok) == Offer(old(Abs()), f)
      ensures !ok ==> Abs() == old(Abs())
      ensures ok <==> old(outQueue).Some? && (|| |old(outQueue).value| < OUT_QUEUE_MAXSIZE
                                              || SameStream(old(outQueue).value[|old(outQueue).value| - 1], f))
    {
      if outQueue.None? { return false; }
      var q := outQueue.value;
      if |q| < OUT_QUEUE_MAXSIZE {
        outQueue := Some(q + [f]);
      } else {
        var last := q[|q| - 1];
        if !SameStream(last, f) {
          assert Offer(Abs(), f).0.queue == outQueue;
          return false;
        }
        outQueue := Some(q[|q| - 1 := Delta(last.msgId, last.text + f.text, f.ts)]);
      }
      accepted := accepted + [f];
      return true;
    }

    /** A waiting writer takes the head of a non-empty queue. */
    method WriterTake(t: nat)
      modifies this
      ensures Abs() == Pop(old(Abs()), t)
      ensures t in old(tasks) && old(tasks[t].Waiting?) && old(outQueue.Some? && outQueue.value != []) ==>
        var f := old(outQueue).value[0];
        outQueue == Some(old(outQueue).value[1..]) && t in tasks && tasks[t] == if f.Delta? then Pausing(f) else Sending(f)
    {
      if t !in tasks || !tasks[t].Waiting? { return; }
      if outQueue.None? { tasks := tasks - {t}; return; }
      var q := outQueue.value;
      if q == [] { return; }
      outQueue := Some(q[1..]);
      tasks := tasks[t := if q[0].Delta? then Pausing(q[0]) else Sending(q[0])];
    }

    /** After the pause: absorb following deltas of the same stream while the item is
        below the size limit. */
    method WriterAggregate(t: nat)
      modifies this
      ensures Abs() == Wake(old(Abs()), t)
    {
      if t !in tasks || !tasks[t].Pausing? || !tasks[t].item.Delta? { return; }
      var item := tasks[t].item;
      if outQueue.Some? {
        var q := outQueue.value;
        while q != [] && SameStream(q[0], item) && Utf8Len(item.text) < DELTA_AGG_BYTES
          invariant item.Delta? && Aggregate(item, q) == Aggregate(tasks[t].item, outQueue.value)
          decreases |q|
        {
          item := Delta(item.msgId, item.text + q[0].text, q[0].ts);
          q := q[1..];
        }
        outQueue := Some(q);
      }
      tasks := tasks[t := Sending(item)];
    }

    method WriterSent(t: nat, ok: bool)
      modifies this
      ensures Abs() == Sent(old(Abs()), t, ok)
    {
      if t !in tasks || !tasks[t].Sending? { return; }
      if currentWs.None? { tasks := tasks[t := Waiting]; return; }
      if ok {
        sent := sent + [tasks[t].item];
        tasks := tasks[t := Waiting];
      } else {
        failed := Some(tasks[t].item);
        tasks := tasks - {t};
      }
    }

    method HandleConnection() returns (w: nat)
      modifies this
      ensures Abs() == Connect(old(Abs())) && currentWs == Some(w)
    {
      if currentWs.Some? && writerTask.Some? {
        tasks := tasks - {writerTask.value};
        writerTask := None;
      }
      w := nextWs;
      currentWs, outQueue := Some(w), Some([]);
      accepted, sent, failed := [], [], None;
      writerTask := Some(nextTask);
      tasks := tasks[nextTask := Waiting];
      nextWs, nextTask := nextWs + 1, nextTask + 1;
    }

    method EndConnection(w: nat)
      modifies this
      ensures Abs() == Disconnect(old(Abs()), w)
    {
      if currentWs == Some(w) {
        currentWs := None;
        if writerTask.Some? {
          tasks := tasks - {writerTask.value};
          writerTask := None;
        }
        outQueue := None;
      }
    }
  }
}
