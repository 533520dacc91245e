/** When a number returns: a send whose sequence file write failed, any polls and
    acknowledgements after it, and the next send.  All writes may fail in any way. */
module MobileNumbers {
  import opened SafeWrite
  import opened MobileQueue
  import Client = MobileClient

  ghost predicate Has(items: seq<Item>, n: int) {
    exists x :: x in items && Num(x) == n
  }

  ghost predicate UpTo(items: seq<Item>, n: int) {
    forall x :: x in items ==> Num(x) <= n
  }

  /** A queue file of this code or none, and a sequence file past its numbers. */
  ghost predicate Past(s: Store) {
    Client.FileOk(s.queueFile) && UpTo(Client.Content(s.queueFile), StoredNext(s.seqFile) - 1)
  }

  /** n was the last number given, and the sequence file may not know it. */
  ghost predicate Gave(s: Store, n: int) {
    && n > 0 && Client.FileOk(s.queueFile) && UpTo(Client.Content(s.queueFile), n)
    && StoredNext(s.seqFile) <= n + 1
  }

  predicate SeqNotLost(env: Env) {
    !env.loadSeq.LostOld?
  }

  // ---- one load ----------------------------------------------------------

  lemma MaxSeqUpTo(items: seq<Item>, n: int)
    requires n > 0 && UpTo(items, n) && forall x :: x in items ==> ValidSeq(x)
    ensures 0 <= MaxSeq(items) <= n && (MaxSeq(items) == n <==> Has(items, n))
  {
    MaxSeqBounds(items);
    MaxSeqBelow(items, n + 1);
    if Has(items, n) {
      var x :| x in items && Num(x) == n;
      var i :| 0 <= i < |items| && items[i] == x;
      assert ValidSeq(items[i]);
    } else {
      MaxSeqBelow(items, n);
    }
  }

  lemma EnsureSeqFile(items: seq<Item>, seqFile: Option<int>, outcome: WriteOutcome)
    requires Client.WellFormed(items)
    ensures EnsureSequences(items, seqFile, outcome).seqFile ==
      if StoredNext(seqFile) < MaxSeq(items) + 1 then Replace(seqFile, MaxSeq(items) + 1, outcome) else seqFile
  {
    Client.EnsureIdentity(items, seqFile, outcome);
  }

  /** The sequence file a load leaves behind, from the greatest number it found. */
  predicate SeqFileIs(before: Option<int>, max: int, stored: bool, outcome: WriteOutcome, after: Option<int>) {
    after == if stored && StoredNext(before) < max + 1 then Replace(before, max + 1, outcome) else before
  }

  lemma LoadSeqFile(s: Store, env: Env, items: seq<Item>)
    requires !s.queueFile.Unreadable? && Client.Content(s.queueFile) == items && Client.WellFormed(items)
    ensures SeqFileIs(s.seqFile, MaxSeq(items), s.queueFile.Stored?, env.loadSeq, Load(s, env).0.seqFile)
  {
    if s.queueFile.Stored? { EnsureSeqFile(items, s.seqFile, env.loadSeq); }
  }

  lemma LoadItems(s: Store, n: int, env: Env)
    requires Client.FileOk(s.queueFile) && UpTo(Client.Content(s.queueFile), n)
    ensures var (after, queue) := Load(s, env);
      Client.FileOk(after.queueFile) && UpTo(Client.Content(after.queueFile), n) && UpTo(queue, n) && Client.WellFormed(queue)
  {
    Client.LoadPrunes(s, env);
  }

  /** The sequence file comes to know of n exactly if it is told, and does not go back
      unless it is lost. */
  predicate SeqKnows(before: Option<int>, n: int, told: bool, notLost: bool, after: Option<int>) {
    && StoredNext(after) <= n + 1 && (StoredNext(after) <= n <==> StoredNext(before) <= n && !told)
    && (notLost ==> StoredNext(before) <= StoredNext(after))
  }

  lemma SeqFileKnows(before: Option<int>, after: Option<int>, max: int, n: int, stored: bool, outcome: WriteOutcome)
    requires 0 <= max <= n && n > 0 && StoredNext(before) <= n + 1 && (!stored ==> max == 0)
    requires SeqFileIs(before, max, stored, outcome, after)
    ensures SeqKnows(before, n, max == n && outcome.Written?, !outcome.LostOld?, after)
  {
  }

  /** What a load leaves: the sequence file knows of n exactly if it did or the load
      found n's item in the queue file and could write. */
  ghost predicate LoadKeeps(s: Store, n: int, env: Env, after: Store, queue: seq<Item>) {
    && Gave(after, n) && UpTo(queue, n) && Client.WellFormed(queue)
    && SeqKnows(s.seqFile, n, Has(Client.Content(s.queueFile), n) && env.loadSeq.Written?, SeqNotLost(env), after.seqFile)
  }

  lemma LoadSeqKnows(s: Store, n: int, env: Env, items: seq<Item>)
    requires n > 0 && StoredNext(s.seqFile) <= n + 1 && UpTo(items, n)
    requires !s.queueFile.Unreadable? && Client.Content(s.queueFile) == items && Client.WellFormed(items)
    ensures SeqKnows(s.seqFile, n, Has(items, n) && env.loadSeq.Written?, SeqNotLost(env), Load(s, env).0.seqFile)
  {
    LoadSeqFile(s, env, items);
    MaxSeqUpTo(items, n);
    SeqFileKnows(s.seqFile, Load(s, env).0.seqFile, MaxSeq(items), n, s.queueFile.Stored?, env.loadSeq);
  }

  lemma LoadAfterGiving(s: Store, n: int, env: Env)
    requires Gave(s, n)
    ensures LoadKeeps(s, n, env, Load(s, env).0, Load(s, env).1)
  {
    LoadItems(s, n, env);
    LoadSeqKnows(s, n, env, Client.Content(s.queueFile));
  }

  // ---- polls and acknowledgements ----------------------------------------

  lemma AckAfterGiving(s: Store, n: int, upTo: int, env: Env)
    requires Gave(s, n)
    ensures Gave(Ack(s, upTo, env).0, n) && Ack(s, upTo, env).0.seqFile == Load(s, env).0.seqFile
  {
    LoadAfterGiving(s, n, env);
    var (loaded, queue) := Load(s, env);
    Client.AfterExact(queue, upTo);
    Client.AfterIncreasing(queue, upTo);
    Client.WriteOk(loaded.queueFile, After(queue, upTo), env.sendQueue);
  }

  /** Some load of the run found n's item in the queue file and wrote the sequence file. */
  ghost predicate Noticed(s: Store, ops: seq<Op>, n: int)
    decreases |ops|
  {
    && ops != []
    && (Noticed(s, ops[..|ops| - 1], n) || NoticedBy(Run(s, ops[..|ops| - 1]), ops[|ops| - 1], n))
  }

  ghost predicate NoticedBy(s: Store, op: Op, n: int) {
    Has(Client.Content(s.queueFile), n) && op.env.loadSeq.Written?
  }

  lemma StepAfterGiving(s: Store, n: int, op: Op)
    requires Gave(s, n) && !op.OpSend?
    ensures Gave(Step(s, op), n)
    ensures StoredNext(Step(s, op).seqFile) <= n <==> StoredNext(s.seqFile) <= n && !NoticedBy(s, op, n)
    ensures SeqNotLost(op.env) ==> StoredNext(s.seqFile) <= StoredNext(Step(s, op).seqFile)
  {
    LoadAfterGiving(s, n, op.env);
    if op.OpAck? { AckAfterGiving(s, n, op.upTo, op.env); }
  }

  lemma {:induction false} RunAfterGiving(s: Store, n: int, ops: seq<Op>)
    requires Gave(s, n) && StoredNext(s.seqFile) <= n && forall op :: op in ops ==> !op.OpSend?
    ensures Gave(Run(s, ops), n) && (StoredNext(Run(s, ops).seqFile) <= n <==> !Noticed(s, ops, n))
    ensures (forall op :: op in ops ==> SeqNotLost(op.env)) ==> StoredNext(s.seqFile) <= StoredNext(Run(s, ops).seqFile)
    decreases |ops|
  {
    if ops != [] {
      var front, last := ops[..|ops| - 1], ops[|ops| - 1];
      assert last in ops && forall op :: op in front ==> op in ops;
      RunAfterGiving(s, n, front);
      StepAfterGiving(Run(s, front), n, last);
    }
  }

  // ---- two sends ---------------------------------------------------------

  lemma LoadPast(s: Store, env: Env)
    requires Past(s)
    ensures var (loaded, queue) := Load(s, env);
      && loaded.seqFile == s.seqFile && Client.FileOk(loaded.queueFile) && Client.WellFormed(queue)
      && UpTo(Client.Content(loaded.queueFile), StoredNext(s.seqFile) - 1) && UpTo(queue, StoredNext(s.seqFile) - 1)
  {
    Client.LoadPrunes(s, env);
    LoadSeqFile(s, env, Client.Content(s.queueFile));
    MaxSeqBelow(Client.Content(s.queueFile), StoredNext(s.seqFile));
  }

  lemma NextOf(seqFile: Option<int>, queue: seq<Item>)
    requires UpTo(queue, StoredNext(seqFile) - 1)
    ensures NextSeq(seqFile, queue) == StoredNext(seqFile)
  {
    MaxSeqBelow(queue, StoredNext(seqFile));
  }

  lemma FirstSend(s: Store, body: string, env: Env)
    requires Past(s) && !env.sendSeq.Written?
    ensures var (after, a) := Send(s, body, env);
      && Num(a) == StoredNext(s.seqFile) && Gave(after, Num(a)) && StoredNext(after.seqFile) <= Num(a)
      && (env.sendSeq.KeptOld? ==> StoredNext(after.seqFile) == Num(a))
  {
    LoadPast(s, env);
    var (loaded, queue) := Load(s, env);
    NextOf(s.seqFile, queue);
    Client.SendWrites(loaded.queueFile, queue, Send(s, body, env).1, env.now, env.sendQueue);
  }

  lemma NextSend(s: Store, n: int, body: string, env: Env)
    requires Gave(s, n)
    ensures Num(Send(s, body, env).1) <= n <==>
      StoredNext(s.seqFile) <= n && !NoticedBy(s, OpSend(body, env), n) && !Has(Load(s, env).1, n)
    ensures Num(Send(s, body, env).1) >= StoredNext(Load(s, env).0.seqFile)
  {
    LoadAfterGiving(s, n, env);
    MaxSeqUpTo(Load(s, env).1, n);
  }

  lemma NoticedSnoc(s: Store, ops: seq<Op>, op: Op, n: int)
    ensures Noticed(s, ops + [op], n) <==> Noticed(s, ops, n) || NoticedBy(Run(s, ops), op, n)
  {
    assert (ops + [op])[..|ops|] == ops;
  }

  lemma SendAfterGiving(sent: Store, n: int, between: seq<Op>, body: string, env: Env)
    requires Gave(sent, n) && StoredNext(sent.seqFile) <= n && forall op :: op in between ==> !op.OpSend?
    ensures var now := Run(sent, between);
      Num(Send(now, body, env).1) <= n <==> !Noticed(sent, between + [OpSend(body, env)], n) && !Has(Load(now, env).1, n)
    ensures SeqNotLost(env) && (forall op :: op in between ==> SeqNotLost(op.env)) ==>
      StoredNext(sent.seqFile) <= Num(Send(Run(sent, between), body, env).1)
  {
    RunAfterGiving(sent, n, between);
    LoadAfterGiving(Run(sent, between), n, env);
    NextSend(Run(sent, between), n, body, env);
    NoticedSnoc(sent, between, OpSend(body, env), n);
  }

  /** After a send that could not write the sequence file, the next send gives a number
      that is not new if and only if no load since -- of a poll, of an acknowledgement,
      or its own -- found the item in the queue file and wrote the sequence file, and the
      item is no longer in the queue it loads.  If the sequence file is never lost, the
      number that returns is the same one. */
  lemma NumberReturnsIff(s: Store, first: string, env: Env, between: seq<Op>, second: string, env': Env)
    requires Past(s) && !env.sendSeq.Written? && forall op :: op in between ==> !op.OpSend?
    ensures var (sent, a) := Send(s, first, env);
      var now := Run(sent, between);
      var b := Send(now, second, env').1;
      && (Num(b) <= Num(a) <==> !Noticed(sent, between + [OpSend(second, env')], Num(a)) && !Has(Load(now, env').1, Num(a)))
      && (env.sendSeq.KeptOld? && SeqNotLost(env') && (forall op :: op in between ==> SeqNotLost(op.env)) ==> Num(a) <= Num(b))
  {
    FirstSend(s, first, env);
    var (sent, a) := Send(s, first, env);
    SendAfterGiving(sent, Num(a), between, second, env');
  }

  /** Such a send may follow any run whose writes of the sequence file succeed. */
  lemma FairRunIsPast(ops: seq<Client.Op>)
    requires Client.AllFair(ops)
    ensures Past(Client.Run(ops).store)
  {
    Client.RunInv(ops);
  }
}
