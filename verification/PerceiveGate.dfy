/** The deduplication gate: an event reserves its key, asks the dream guard and
    either keeps the reservation or gives it back.  Reserve and settle are separate
    steps, so calls interleave freely; a call whose guard does not suspend is the two
    in a row. */
module PerceiveGate {

  const TTL_SECONDS: real := 90.0

  datatype Slot = Slot(since: real, eventId: string)

  /** A call between its reservation and its end. */
  datatype Call = Call(key: string, eventId: string, since: real)

  datatype Acceptance = Acceptance(key: string, eventId: string, since: real)

  /** `calls` are the calls in progress, by call id; `accepted` is the history of
      accepted events, oldest first; `clock` the latest time read. */
  datatype State = State(registry: map<string, Slot>, calls: map<nat, Call>, nextCall: nat,
                         accepted: seq<Acceptance>, clock: real)

  const INIT := State(map[], map[], 0, [], 0.0)

  function Evict(registry: map<string, Slot>, now: real): map<string, Slot> {
    map k | k in registry && now - registry[k].since <= TTL_SECONDS :: registry[k]
  }

  datatype Outcome = Duplicate(existing: string) | Reserved(call: nat)

  /** The first critical section: evict, look up, reserve. */
  function Reserve(s: State, key: string, eventId: string, now: real): (State, Outcome) {
    var live := Evict(s.registry, now);
    if key in live then (s.(registry := live, clock := now), Duplicate(live[key].eventId))
    else
      (s.(registry := live[key := Slot(now, eventId)],
          calls := s.calls[s.nextCall := Call(key, eventId, now)], nextCall := s.nextCall + 1, clock := now),
       Reserved(s.nextCall))
  }

  /** The end of a call: accepted when the guard allows or is not required, else the
      slot is popped by key. */
  function Settle(s: State, c: nat, allowed: bool, now: real): State {
    if c !in s.calls then s
    else
      var call := s.calls[c];
      var done := s.(calls := s.calls - {c}, clock := now);
      if allowed then done.(accepted := s.accepted + [Acceptance(call.key, call.eventId, call.since)])
      else done.(registry := s.registry - {call.key})
  }

  datatype Op = OpReserve(key: string, eventId: string, now: real) | OpSettle(c: nat, allowed: bool, now: real)

  function Step(s: State, op: Op): State {
    match op
    case OpReserve(k, e, now) => Reserve(s, k, e, now).0
    case OpSettle(c, allowed, now) => Settle(s, c, allowed, now)
  }

  function Run(ops: seq<Op>): State
    decreases |ops|
  {
    if ops == [] then INIT else Step(Run(ops[..|ops| - 1]), ops[|ops| - 1])
  }

  /** The clock does not run backwards, and a call settles within the time to live of
      its reservation. */
  predicate Timely(s: State, op: Op) {
    && op.now >= s.clock
    && (op.OpSettle? && op.c in s.calls ==> op.now - s.calls[op.c].since <= TTL_SECONDS)
  }

  predicate AllTimely(ops: seq<Op>)
    decreases |ops|
  {
    ops != [] ==> Timely(Run(ops[..|ops| - 1]), ops[|ops| - 1]) && AllTimely(ops[..|ops| - 1])
  }

  // ---- the invariant -----------------------------------------------------

  /** `k` is reserved since `t`: its slot stands until more than 90 s have passed. */
  ghost predicate Holds(s: State, k: string, t: real) {
    s.clock - t <= TTL_SECONDS ==> k in s.registry && s.registry[k].since == t
  }

  /** Reservations of one key, pending or accepted, lie more than 90 s apart. */
  ghost predicate Apart(t: real, u: real) {
    t - u > TTL_SECONDS || u - t > TTL_SECONDS
  }

  ghost predicate CallsOk(s: State) {
    && (forall c :: c in s.calls ==> c < s.nextCall && s.calls[c].since <= s.clock && Holds(s, s.calls[c].key, s.calls[c].since))
    && (forall c, d :: c in s.calls && d in s.calls && c != d && s.calls[c].key == s.calls[d].key
          ==> Apart(s.calls[c].since, s.calls[d].since))
    && (forall c, i :: c in s.calls && 0 <= i < |s.accepted| && s.accepted[i].key == s.calls[c].key
          ==> Apart(s.calls[c].since, s.accepted[i].since))
  }

  ghost predicate AcceptedOk(s: State) {
    && (forall i :: 0 <= i < |s.accepted| ==> s.accepted[i].since <= s.clock && Holds(s, s.accepted[i].key, s.accepted[i].since))
    && (forall i, j :: 0 <= i < j < |s.accepted| && s.accepted[i].key == s.accepted[j].key
          ==> Apart(s.accepted[i].since, s.accepted[j].since))
  }

  ghost predicate Inv(s: State) {
    CallsOk(s) && AcceptedOk(s)
  }

  /** A reservation still held keeps every other event with its key out. */
  lemma HeldAtReserve(s: State, op: Op, k: string, t: real)
    requires op.OpReserve? && Timely(s, op) && Holds(s, k, t) && t <= s.clock
    ensures Holds(Step(s, op), k, t)
    ensures Reserve(s, op.key, op.eventId, op.now).1.Reserved? && op.key == k ==> op.now - t > TTL_SECONDS
  {
  }

  lemma ReserveInv(s: State, op: Op)
    requires Inv(s) && op.OpReserve? && Timely(s, op)
    ensures Inv(Step(s, op))
  {
    var s' := Step(s, op);
    forall c | c in s.calls ensures Holds(s', s.calls[c].key, s.calls[c].since) {
      HeldAtReserve(s, op, s.calls[c].key, s.calls[c].since);
    }
    forall i | 0 <= i < |s.accepted| ensures Holds(s', s.accepted[i].key, s.accepted[i].since) {
      HeldAtReserve(s, op, s.accepted[i].key, s.accepted[i].since);
    }
    forall c | c in s.calls && s.calls[c].key == op.key && s'.nextCall > s.nextCall ensures Apart(s.calls[c].since, op.now) {
      HeldAtReserve(s, op, s.calls[c].key, s.calls[c].since);
    }
    forall i | 0 <= i < |s.accepted| && s.accepted[i].key == op.key && s'.nextCall > s.nextCall ensures Apart(s.accepted[i].since, op.now) {
      HeldAtReserve(s, op, s.accepted[i].key, s.accepted[i].since);
    }
  }

  /** Every other reservation of c's key, pending or accepted, is more than 90 s old. */
  ghost predicate OthersOld(s: State, c: nat, now: real)
    requires c in s.calls
  {
    && (forall d :: d in s.calls && d != c && s.calls[d].key == s.calls[c].key ==> now - s.calls[d].since > TTL_SECONDS)
    && (forall i :: 0 <= i < |s.accepted| && s.accepted[i].key == s.calls[c].key ==> now - s.accepted[i].since > TTL_SECONDS)
  }

  lemma AcceptInv(s: State, c: nat, now: real)
    requires Inv(s) && c in s.calls && now >= s.clock
    ensures Inv(Settle(s, c, true, now))
  {
    var after := Settle(s, c, true, now);
    assert forall d :: d in after.calls ==> d in s.calls && d != c && after.calls[d] == s.calls[d];
  }

  /** A blocked call may pop the slot of its key exactly when no other reservation of
      that key is still within its 90 s. */
  lemma BlockKeepsInvIff(s: State, c: nat, now: real)
    requires Inv(s) && c in s.calls && now >= s.clock
    ensures Inv(Settle(s, c, false, now)) <==> OthersOld(s, c, now)
  {
    var after := Settle(s, c, false, now);
    assert forall d :: d in after.calls <==> d in s.calls && d != c;
    assert forall d :: d in after.calls ==> after.calls[d] == s.calls[d];
    if Inv(after) {
      forall d | d in s.calls && d != c && s.calls[d].key == s.calls[c].key ensures now - s.calls[d].since > TTL_SECONDS {
        assert d in after.calls && Holds(after, s.calls[d].key, s.calls[d].since);
      }
      forall i | 0 <= i < |s.accepted| && s.accepted[i].key == s.calls[c].key ensures now - s.accepted[i].since > TTL_SECONDS {
        assert Holds(after, after.accepted[i].key, after.accepted[i].since);
      }
    }
    if OthersOld(s, c, now) {
      forall d | d in after.calls ensures Holds(after, after.calls[d].key, after.calls[d].since) {
        assert Holds(s, s.calls[d].key, s.calls[d].since);
      }
      forall i | 0 <= i < |s.accepted| ensures Holds(after, s.accepted[i].key, s.accepted[i].since) {
        assert Holds(s, s.accepted[i].key, s.accepted[i].since);
      }
    }
  }

  lemma TimelyOthersAreOld(s: State, c: nat, now: real)
    requires Inv(s) && c in s.calls && now >= s.clock && now - s.calls[c].since <= TTL_SECONDS
    ensures OthersOld(s, c, now)
  {
    forall d | d in s.calls && d != c && s.calls[d].key == s.calls[c].key ensures now - s.calls[d].since > TTL_SECONDS {
      assert Apart(s.calls[d].since, s.calls[c].since);
    }
    forall i | 0 <= i < |s.accepted| && s.accepted[i].key == s.calls[c].key ensures now - s.accepted[i].since > TTL_SECONDS {
      assert Apart(s.calls[c].since, s.accepted[i].since);
    }
  }

  /** The clock does not run backwards, and a blocked call pops no slot that another
      reservation needs. */
  ghost predicate Safe(s: State, op: Op) {
    op.now >= s.clock && (op.OpSettle? && op.c in s.calls && !op.allowed ==> OthersOld(s, op.c, op.now))
  }

  ghost predicate AllSafe(ops: seq<Op>)
    decreases |ops|
  {
    ops != [] ==> AllSafe(ops[..|ops| - 1]) && Safe(Run(ops[..|ops| - 1]), ops[|ops| - 1])
  }

  lemma StepInv(s: State, op: Op)
    requires Inv(s) && op.now >= s.clock
    ensures Inv(Step(s, op)) <==> Safe(s, op)
  {
    if op.OpReserve? {
      ReserveInv(s, op);
    } else if op.c in s.calls {
      if op.allowed { AcceptInv(s, op.c, op.now); } else { BlockKeepsInvIff(s, op.c, op.now); }
    }
  }

  lemma {:induction false} RunInv(ops: seq<Op>)
    requires AllSafe(ops)
    ensures Inv(Run(ops))
    decreases |ops|
  {
    if ops != [] {
      RunInv(ops[..|ops| - 1]);
      StepInv(Run(ops[..|ops| - 1]), ops[|ops| - 1]);
    }
  }

  lemma {:induction false} TimelyIsSafe(ops: seq<Op>)
    requires AllTimely(ops)
    ensures AllSafe(ops)
    decreases |ops|
  {
    if ops != [] {
      var s, op := Run(ops[..|ops| - 1]), ops[|ops| - 1];
      TimelyIsSafe(ops[..|ops| - 1]);
      RunInv(ops[..|ops| - 1]);
      if op.OpSettle? && op.c in s.calls { TimelyOthersAreOld(s, op.c, op.now); }
    }
  }

  // ---- main results ------------------------------------------------------

  /** Accepted events with one key were reserved more than 90 s apart. */
  ghost predicate WindowOk(s: State) {
    forall i, j :: 0 <= i < j < |s.accepted| && s.accepted[i].key == s.accepted[j].key
      ==> Apart(s.accepted[i].since, s.accepted[j].since)
  }

  /** Over every run of interleaved calls in which blocked calls pop safely, two
      accepted events with one key were reserved more than 90 s apart. */
  lemma AcceptedOncePerWindow(ops: seq<Op>)
    requires AllSafe(ops)
    ensures WindowOk(Run(ops))
  {
    RunInv(ops);
  }

  /** In particular when every call settles within 90 s of its reservation. */
  lemma TimelyRunsKeepWindow(ops: seq<Op>)
    requires AllTimely(ops)
    ensures WindowOk(Run(ops))
  {
    TimelyIsSafe(ops);
    AcceptedOncePerWindow(ops);
  }

  function RunFrom(s: State, ops: seq<Op>): State
    decreases |ops|
  {
    if ops == [] then s else Step(RunFrom(s, ops[..|ops| - 1]), ops[|ops| - 1])
  }

  predicate ClockRuns(s: State, ops: seq<Op>)
    decreases |ops|
  {
    ops != [] ==> ops[|ops| - 1].now >= RunFrom(s, ops[..|ops| - 1]).clock && ClockRuns(s, ops[..|ops| - 1])
  }

  lemma {:induction false} SlotsAreNewer(s: State, key: string, ops: seq<Op>)
    requires key !in s.registry && ClockRuns(s, ops)
    ensures var s' := RunFrom(s, ops);
      s'.clock >= s.clock && (key in s'.registry ==> s'.registry[key].since >= s.clock)
    decreases |ops|
  {
    if ops != [] { SlotsAreNewer(s, key, ops[..|ops| - 1]); }
  }

  /** After a blocked call has given its key back, a retry is never taken for a
      duplicate of it: at once the key is free, and after any further steps a
      duplicate answer names an event that reserved after the release. */
  lemma RetryAfterBlock(s: State, c: nat, now: real, ops: seq<Op>, eventId: string, later: real)
    requires c in s.calls && ClockRuns(Settle(s, c, false, now), ops)
    ensures var key := s.calls[c].key; var released := Settle(s, c, false, now); var s' := RunFrom(released, ops);
      && Reserve(released, key, eventId, later).1.Reserved?
      && (Reserve(s', key, eventId, later).1.Duplicate? ==>
            && key in s'.registry && s'.registry[key].since >= now
            && Reserve(s', key, eventId, later).1.existing == s'.registry[key].eventId)
  {
    SlotsAreNewer(Settle(s, c, false, now), s.calls[c].key, ops);
  }

  /** While a call is pending and for 90 s from its reservation, another event with
      its key is a duplicate of it. */
  lemma PendingCallExcludes(ops: seq<Op>, c: nat, now: real, eventId: string)
    requires AllSafe(ops) && c in Run(ops).calls
    requires Run(ops).clock <= now <= Run(ops).calls[c].since + TTL_SECONDS
    ensures Reserve(Run(ops), Run(ops).calls[c].key, eventId, now).1.Duplicate?
  {
    RunInv(ops);
  }

  /** Giving back pops by key without looking whose slot it is; for a call within its
      90 s the slot is always its own. */
  lemma ReleaseTakesOwnSlot(ops: seq<Op>, c: nat, now: real)
    requires AllSafe(ops) && c in Run(ops).calls && Timely(Run(ops), OpSettle(c, false, now))
    ensures var s := Run(ops); var call := s.calls[c];
      call.key in s.registry && s.registry[call.key].since == call.since
  {
    RunInv(ops);
  }

  // ---- who is a duplicate ------------------------------------------------

  /** Some event with this key, pending or accepted, reserved at this time. */
  ghost predicate Reserver(s: State, key: string, since: real, eventId: string) {
    || (exists c :: c in s.calls && s.calls[c] == Call(key, eventId, since))
    || (exists i :: 0 <= i < |s.accepted| && s.accepted[i] == Acceptance(key, eventId, since))
  }

  /** Every slot belongs to an event that is pending or was accepted. */
  ghost predicate SlotsOwned(s: State) {
    && (forall k :: k in s.registry ==> Reserver(s, k, s.registry[k].since, s.registry[k].eventId))
    && (forall c :: c in s.calls ==> c < s.nextCall)
  }

  lemma ReserverStays(s: State, after: State, key: string, since: real, eventId: string)
    requires Reserver(s, key, since, eventId)
    requires forall c :: c in s.calls ==>
      (c in after.calls && after.calls[c] == s.calls[c])
      || Acceptance(s.calls[c].key, s.calls[c].eventId, s.calls[c].since) in after.accepted || s.calls[c].key != key
    requires s.accepted <= after.accepted
    ensures Reserver(after, key, since, eventId)
  {
    if c :| c in s.calls && s.calls[c] == Call(key, eventId, since) {
      assert c in after.calls || Acceptance(key, eventId, since) in after.accepted;
    } else {
      var i :| 0 <= i < |s.accepted| && s.accepted[i] == Acceptance(key, eventId, since);
      assert after.accepted[i] == s.accepted[i];
    }
  }

  lemma StepOwned(s: State, op: Op)
    requires SlotsOwned(s)
    ensures SlotsOwned(Step(s, op))
  {
    var after := Step(s, op);
    forall k | k in after.registry ensures Reserver(after, k, after.registry[k].since, after.registry[k].eventId) {
      if op.OpReserve? && s.nextCall in after.calls && k == op.key && after.registry[k] == Slot(op.now, op.eventId)
         && after.calls[s.nextCall] == Call(op.key, op.eventId, op.now)
      {
        assert Reserver(after, k, op.now, op.eventId);
      } else {
        assert k in s.registry && after.registry[k] == s.registry[k];
        ReserverStays(s, after, k, s.registry[k].since, s.registry[k].eventId);
      }
    }
  }

  lemma {:induction false} RunSlotsOwned(ops: seq<Op>)
    ensures SlotsOwned(Run(ops))
    decreases |ops|
  {
    if ops != [] {
      RunSlotsOwned(ops[..|ops| - 1]);
      StepOwned(Run(ops[..|ops| - 1]), ops[|ops| - 1]);
    }
  }

  /** Exactly the events whose key is taken are duplicates: one is turned away if and only
      if an event with its key, pending or accepted, reserved in the last 90 s, and it is
      told which. */
  lemma DuplicateIff(ops: seq<Op>, key: string, eventId: string, now: real)
    requires AllSafe(ops) && now >= Run(ops).clock
    ensures var s := Run(ops); var outcome := Reserve(s, key, eventId, now).1;
      && (outcome.Duplicate? <==> exists since, other :: Reserver(s, key, since, other) && now - since <= TTL_SECONDS)
      && (outcome.Duplicate? ==> exists since :: Reserver(s, key, since, outcome.existing) && now - since <= TTL_SECONDS)
  {
    RunInv(ops);
    RunSlotsOwned(ops);
    var s := Run(ops);
    if key in s.registry && now - s.registry[key].since <= TTL_SECONDS {
      assert Reserver(s, key, s.registry[key].since, s.registry[key].eventId);
    }
    forall since, other | Reserver(s, key, since, other) && now - since <= TTL_SECONDS
      ensures key in s.registry && s.registry[key].since == since
    {
      assert Holds(s, key, since);
    }
  }

  predicate NoBlocks(ops: seq<Op>) {
    forall i :: 0 <= i < |ops| ==> ops[i].OpSettle? ==> ops[i].allowed
  }

  lemma {:induction false} NoBlocksKeepInv(s: State, ops: seq<Op>)
    requires Inv(s) && NoBlocks(ops) && ClockRuns(s, ops)
    ensures Inv(RunFrom(s, ops))
    decreases |ops|
  {
    if ops != [] {
      NoBlocksKeepInv(s, ops[..|ops| - 1]);
      StepInv(RunFrom(s, ops[..|ops| - 1]), ops[|ops| - 1]);
    }
  }

  lemma RunFromSnoc(s: State, ops: seq<Op>, op: Op)
    ensures RunFrom(s, ops + [op]) == Step(RunFrom(s, ops), op)
    ensures ClockRuns(s, ops + [op]) <==> ClockRuns(s, ops) && op.now >= RunFrom(s, ops).clock
  {
    assert (ops + [op])[..|ops|] == ops;
  }

  lemma NotApart(s: State, i: nat, j: nat)
    requires i < j < |s.accepted| && s.accepted[i].key == s.accepted[j].key && !Apart(s.accepted[i].since, s.accepted[j].since)
    ensures !WindowOk(s)
  {
  }

  /** The next event with the key, accepted at once, and then d if it is a call. */
  function Next(s: State, c: nat, now: real, d: nat): seq<Op>
    requires c in s.calls
  {
    [OpReserve(s.calls[c].key, "next", now)] + [OpSettle(s.nextCall, true, now)] + [OpSettle(d, true, now)]
  }

  lemma NextRuns(s: State, c: nat, now: real, d: nat)
    requires Inv(s) && c in s.calls && now >= s.clock && d != c
    ensures var released := Settle(s, c, false, now);
      && ClockRuns(released, Next(s, c, now, d)) && NoBlocks(Next(s, c, now, d))
      && RunFrom(released, Next(s, c, now, d)).accepted
        == s.accepted + [Acceptance(s.calls[c].key, "next", now)]
           + if d in s.calls then [Acceptance(s.calls[d].key, s.calls[d].eventId, s.calls[d].since)] else []
  {
    var released := Settle(s, c, false, now);
    var o1, o2, o3 := OpReserve(s.calls[c].key, "next", now), OpSettle(s.nextCall, true, now), OpSettle(d, true, now);
    RunFromSnoc(released, [], o1);
    RunFromSnoc(released, [] + [o1], o2);
    RunFromSnoc(released, [] + [o1] + [o2], o3);
    assert [] + [o1] == [o1];
    assert s.nextCall !in s.calls;
  }

  /** What is at stake when a blocked call pops by key: if some other reservation of
      that key is still within its 90 s, an event that arrives next is accepted beside
      it; otherwise no continuation breaks the window until another call blocks. */
  lemma BlockBreaksWindowIff(s: State, c: nat, now: real)
    requires Inv(s) && c in s.calls && now >= s.clock
    ensures (exists ops :: ClockRuns(Settle(s, c, false, now), ops) && NoBlocks(ops) && !WindowOk(RunFrom(Settle(s, c, false, now), ops)))
       <==> !OthersOld(s, c, now)
  {
    var released := Settle(s, c, false, now);
    BlockKeepsInvIff(s, c, now);
    if OthersOld(s, c, now) {
      forall ops | ClockRuns(released, ops) && NoBlocks(ops) ensures WindowOk(RunFrom(released, ops)) {
        NoBlocksKeepInv(released, ops);
      }
    } else if d :| d in s.calls && d != c && s.calls[d].key == s.calls[c].key && now - s.calls[d].since <= TTL_SECONDS {
      NextRuns(s, c, now, d);
      var after := RunFrom(released, Next(s, c, now, d));
      NotApart(after, |s.accepted|, |s.accepted| + 1);
    } else {
      var i :| 0 <= i < |s.accepted| && s.accepted[i].key == s.calls[c].key && now - s.accepted[i].since <= TTL_SECONDS;
      NextRuns(s, c, now, s.nextCall);
      NotApart(RunFrom(released, Next(s, c, now, s.nextCall)), i, |s.accepted|);
    }
  }

  // ---- calls whose guard does not suspend --------------------------------

  /** One call from reservation to end; the guard may take as long as it likes. */
  datatype Whole = Whole(key: string, eventId: string, allowed: bool, now: real, end: real)

  function Receive(s: State, w: Whole): State {
    var (reserved, outcome) := Reserve(s, w.key, w.eventId, w.now);
    match outcome
    case Duplicate(_) => reserved
    case Reserved(c) => Settle(reserved, c, w.allowed, w.end)
  }

  function ReceiveAll(calls: seq<Whole>): State
    decreases |calls|
  {
    if calls == [] then INIT else Receive(ReceiveAll(calls[..|calls| - 1]), calls[|calls| - 1])
  }

  predicate Forward(calls: seq<Whole>)
    decreases |calls|
  {
    calls != [] ==>
      Forward(calls[..|calls| - 1]) && ReceiveAll(calls[..|calls| - 1]).clock <= calls[|calls| - 1].now <= calls[|calls| - 1].end
  }

  lemma ReceiveInv(s: State, w: Whole)
    requires Inv(s) && s.calls == map[] && s.clock <= w.now <= w.end
    ensures Inv(Receive(s, w)) && Receive(s, w).calls == map[]
  {
    var op := OpReserve(w.key, w.eventId, w.now);
    ReserveInv(s, op);
    var (reserved, outcome) := Reserve(s, w.key, w.eventId, w.now);
    if outcome.Reserved? {
      forall i | 0 <= i < |s.accepted| && s.accepted[i].key == w.key ensures w.end - s.accepted[i].since > TTL_SECONDS {
        HeldAtReserve(s, op, s.accepted[i].key, s.accepted[i].since);
      }
      StepInv(reserved, OpSettle(outcome.call, w.allowed, w.end));
    }
  }

  /** When nothing runs between the reservation and the end of a call, as where the
      guard is a plain function call, no time limit is needed: however slow a guard is,
      accepted events with one key were reserved more than 90 s apart, and a blocked
      call leaves its key free. */
  lemma {:induction false} WholeCallsKeepWindow(calls: seq<Whole>)
    requires Forward(calls)
    ensures WindowOk(ReceiveAll(calls)) && Inv(ReceiveAll(calls)) && ReceiveAll(calls).calls == map[]
    decreases |calls|
  {
    if calls != [] {
      WholeCallsKeepWindow(calls[..|calls| - 1]);
      ReceiveInv(ReceiveAll(calls[..|calls| - 1]), calls[|calls| - 1]);
    }
  }

  function SlowRun(key: string): seq<Op> {
    [OpReserve(key, "a", 0.0), OpReserve(key, "b", 91.0), OpSettle(0, false, 91.5),
     OpReserve(key, "c", 92.0), OpSettle(1, true, 92.5), OpSettle(2, true, 93.0)]
  }

  /** For a gate whose guard suspends, the first case of that: A reserves and is slow, B reserves
      after A's slot expired, A is blocked and pops B's slot, C reserves while B is
      pending, and both B and C are accepted one second apart. */
  lemma SlowCallBreaksWindow(key: string)
    ensures Run(SlowRun(key)).accepted == [Acceptance(key, "b", 91.0), Acceptance(key, "c", 92.0)]
  {
    var o1 := [OpReserve(key, "a", 0.0)];
    var o2 := o1 + [OpReserve(key, "b", 91.0)];
    var o3 := o2 + [OpSettle(0, false, 91.5)];
    var o4 := o3 + [OpReserve(key, "c", 92.0)];
    var o5 := o4 + [OpSettle(1, true, 92.5)];
    var o6 := SlowRun(key);
    assert o1[..0] == [] && o2[..1] == o1 && o3[..2] == o2 && o4[..3] == o3 && o5[..4] == o4 && o6[..5] == o5;
    assert Run(o1) == State(map[key := Slot(0.0, "a")], map[0 := Call(key, "a", 0.0)], 1, [], 0.0);
    assert Evict(Run(o1).registry, 91.0) == map[];
    assert Run(o2).registry == map[key := Slot(91.0, "b")];
    assert Run(o3).registry == map[];
    assert Run(o4).registry == map[key := Slot(92.0, "c")];
    assert Run(o5).accepted == [Acceptance(key, "b", 91.0)];
  }

  // ---- the gate as it runs -----------------------------------------------

  class Gate {
    var registry: map<string, Slot>

    constructor ()
      ensures registry == map[]
    {
      registry := map[];
    }

    /** `_evict_expired`: collect the expired keys, then delete them one by one. */
    method EvictExpired(now: real)
      modifies this
      ensures registry == Evict(old(registry), now)
    {
      var expired := set k | k in registry && now - registry[k].since > TTL_SECONDS;
      var rest := expired;
      while rest != {}
        invariant rest <= expired && registry == old(registry) - (expired - rest)
        decreases rest
      {
        var k :| k in rest;
        assert expired - (rest - {k}) == (expired - rest) + {k};
        registry := registry - {k};
        rest := rest - {k};
      }
      assert expired - {} == expired;
    }

    /** The first critical section; returns the id of the earlier event if there is one. */
    method TryReserve(key: string, eventId: string, now: real) returns (duplicate: bool, existing: string)
      modifies this
      ensures forall s: State :: s.registry == old(registry) ==>
        var (s', outcome) := Reserve(s, key, eventId, now);
        registry == s'.registry && duplicate == outcome.Duplicate? && (duplicate ==> existing == outcome.existing)
    {
      EvictExpired(now);
      if key in registry { return true, registry[key].eventId; }
      registry := registry[key := Slot(now, eventId)];
      return false, "";
    }

    /** Giving the key back on any outcome but acceptance: the next event with this key
        is reserved, and every event with another key is answered as before. */
    method Release(key: string)
      modifies this
      ensures forall s: State, eventId, now :: s.registry == registry ==> Reserve(s, key, eventId, now).1.Reserved?
      ensures forall s: State, k, eventId, now :: s.registry == old(registry) && k != key ==>
        Reserve(s, k, eventId, now).1 == Reserve(s.(registry := registry), k, eventId, now).1
      ensures forall s: State, c, now :: s.registry == old(registry) && c in s.calls && s.calls[c].key == key ==>
        registry == Settle(s, c, false, now).registry
    {
      registry := registry - {key};
    }
  }
}
