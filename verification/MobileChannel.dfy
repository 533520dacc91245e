/** The polling channel as it runs: the queue list is repaired, sorted, appended to
    and rewritten, with the sequence file beside it. */
module MobileChannel {
  import opened SafeWrite
  import opened Sequences
  import opened MobileQueue
  import MobileDelivery

  /** The whole repair is what is done followed by what the rest gives. */
  predicate Continues(whole: (seq<Item>, int), done: seq<Item>, rest: (seq<Item>, int)) {
    whole == (done + rest.0, rest.1)
  }

  lemma RenumberHead(it: Item, rest: seq<Item>, next: int, seen: set<int>)
    ensures Renumber([it] + rest, next, seen)
         == if !ValidSeq(it) || Num(it) in seen
            then var r := Renumber(rest, next + 1, seen + {next}); ([it.(seqNo := Number(next))] + r.0, r.1)
            else var r := Renumber(rest, next, seen + {Num(it)}); ([it] + r.0, r.1)
  {
    assert ([it] + rest)[1..] == rest;
  }

  class Channel {
    var queueFile: QueueFile
    var seqFile: Option<int>
    ghost var issued: seq<int>

    ghost function Abs(): Store
      reads this
    {
      Store(queueFile, seqFile, issued)
    }

    constructor (queueFile: QueueFile, seqFile: Option<int>)
      ensures Abs() == Store(queueFile, seqFile, [])
    {
      this.queueFile, this.seqFile, this.issued := queueFile, seqFile, [];
    }

    /** The repair loop, item by item. */
    method Repair(items: seq<Item>) returns (queue: seq<Item>, next: int, end: int, changed: bool)
      ensures next == NextSeq(seqFile, items) && (queue, end) == Renumber(items, next, {})
      ensures changed <==> end > next
    {
      next := NextSeq(seqFile, items);
      end := next;
      queue, changed := [], false;
      var seen: set<int> := {};
      assert items[0..] == items && [] + Renumber(items, next, {}).0 == Renumber(items, next, {}).0;
      for i := 0 to |items|
        invariant next <= end && (changed <==> end > next)
        invariant Continues(Renumber(items, next, {}), queue, Renumber(items[i..], end, seen))
      {
        var it := items[i];
        assert items[i..] == [it] + items[i + 1..];
        RenumberHead(it, items[i + 1..], end, seen);
        if !ValidSeq(it) || Num(it) in seen {
          it := it.(seqNo := Number(end));
          seen := seen + {end};
          end := end + 1;
          changed := true;
        } else {
          seen := seen + {Num(it)};
        }
        Assoc(queue, [it], Renumber(items[i + 1..], end, seen).0);
        queue := queue + [it];
      }
      assert items[|items|..] == [] && queue + [] == queue;
    }

    /** `_load_queue` with `_ensure_sequences`. */
    method LoadQueue(env: Env) returns (queue: seq<Item>)
      modifies this
      ensures (Abs(), queue) == Load(old(Abs()), env)
    {
      if queueFile.NoFile? { return []; }
      var entries := Entries(queueFile);
      var items := ItemsOf(entries);
      var numbered, next, end, changed := Repair(items);
      issued := issued + Range(next, end);
      var sorted := SortBySeq(numbered);
      var required := MaxSeq(sorted) + 1;
      if StoredNext(seqFile) < required || changed {
        seqFile := Replace(seqFile, Max(end, required), env.loadSeq);
      }
      queue := MobileQueue.Prune(sorted, env.now);
      if changed || |items| != |entries| || queue != sorted {
        queueFile := WriteQueue(queueFile, queue, env.loadQueue);
      }
    }

    method WriteToQueue(body: string, env: Env) returns (item: Item)
      modifies this
      ensures (Abs(), item) == Send(old(Abs()), body, env)
      ensures item.body == body && item.stamp == Time(env.now)
      ensures env.sendQueue.Written? ==>
        queueFile.Stored? && queueFile.entries != [] && queueFile.entries[|queueFile.entries| - 1] == Mapping(item)
    {
      if env.sendQueue.Written? { MobileDelivery.SendStores(Abs(), body, env); }
      var queue := LoadQueue(env);
      var n := NextSeq(seqFile, queue);
      seqFile := Replace(seqFile, n + 1, env.sendSeq);
      issued := issued + [n];
      item := Item(Number(n), Time(env.now), body);
      queueFile := WriteQueue(queueFile, MobileQueue.Prune(queue + [item], env.now), env.sendQueue);
    }

    method ReadFromQueue(cursor: Option<int>, limit: int, env: Env) returns (messages: seq<Item>)
      modifies this
      ensures (Abs(), messages) == Poll(old(Abs()), cursor, limit, env)
      ensures |messages| <= 50
    {
      var queue := LoadQueue(env);
      messages := Take(if cursor.None? then queue else After(queue, cursor.value), ClampLimit(limit));
    }

    method Acknowledge(upTo: int, env: Env) returns (left: nat)
      modifies this
      ensures (Abs(), left) == Ack(old(Abs()), upTo, env)
    {
      var queue := LoadQueue(env);
      var remaining := After(queue, upTo);
      if remaining != queue { queueFile := WriteQueue(queueFile, remaining, env.sendQueue); }
      left := |remaining|;
    }
  }
}
