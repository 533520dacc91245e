/** What a listing shows on any store: which receipts, with which status, in which order,
    and what it leaves on disk. */
module OwnerTurnListed {
  import opened SafeWrite
  import opened OwnerTurns
  import opened OwnerTurnListing
  import Ordering

  /** A receipt that reads as running although no task is known to run it. */
  predicate Dead(s: State, k: Key, probe: bool, env: Env) {
    && k in s.disk && k !in env.unreadable && s.disk[k].row.status == Running
    && !(probe && s.disk[k].row.clientTurnId != "" && IsLive(s.inflight, s.tasks, Key(k.caller, s.disk[k].row.clientTurnId)))
  }

  /** The row shown for a file: as it is, or as interrupted if that could be written. */
  function Shown(s: State, k: Key, probe: bool, env: Env): Option<Row> {
    if k !in s.disk || k in env.unreadable then None
    else if !Dead(s, k, probe, env) then Some(s.disk[k].row)
    else if env.Write(k) != Written then None
    else Some(s.disk[k].row.(status := InterruptedUnknown, errorCode := Some("execution_outcome_unknown"), updatedAt := env.now))
  }

  /** The caller, the status and the two times that are asked for. */
  predicate Wanted(filter: Filter, k: Key, row: Row) {
    && (filter.caller == "" || filter.caller == k.caller)
    && (filter.status == None || filter.status == Some(row.status))
    && (filter.after.Some? ==> filter.after.value <= row.createdAt)
    && (filter.before.Some? ==> row.createdAt <= filter.before.value)
  }

  /** Newest first, then by caller, turn id and file name. */
  predicate Precedes(a: Entry, b: Entry) {
    || a.row.createdAt > b.row.createdAt
    || (a.row.createdAt == b.row.createdAt
        && (|| Ordering.Less(a.key.caller, b.key.caller)
            || (a.key.caller == b.key.caller
                && (|| Ordering.Less(a.row.clientTurnId, b.row.clientTurnId)
                    || (a.row.clientTurnId == b.row.clientTurnId && Ordering.Less(a.key.file, b.key.file))))))
  }

  ghost predicate ListedFor(s: State, k: Key, filter: Filter, cursor: Option<SortKey>, probe: bool, env: Env, x: Entry) {
    var row := Shown(s, k, probe, env);
    && row.Some? && Wanted(filter, k, row.value)
    && x == Entry(SortKey(-row.value.createdAt, k.caller, row.value.clientTurnId, k.turn), row.value)
    && (cursor.Some? ==> KeyLess(cursor.value, x.key))
  }

  ghost predicate Listed(s: State, listing: seq<Key>, filter: Filter, cursor: Option<SortKey>, probe: bool, env: Env, x: Entry) {
    exists k :: k in listing && ListedFor(s, k, filter, cursor, probe, env, x)
  }

  predicate Distinct(listing: seq<Key>) {
    forall i, j :: 0 <= i < j < |listing| ==> listing[i] != listing[j]
  }

  // ---- one file ----------------------------------------------------------

  /** What one file adds. */
  function Added(s: State, k: Key, filter: Filter, cursor: Option<SortKey>, probe: bool, env: Env): seq<Entry> {
    var row := Shown(s, k, probe, env);
    if (filter.caller == "" || k.caller == filter.caller) && row.Some? then Collect([], k, row.value, filter, cursor) else []
  }

  /** What it leaves of the store. */
  function Passed(s: State, k: Key, filter: Filter, probe: bool, env: Env): State {
    if (filter.caller == "" || k.caller == filter.caller) && Dead(s, k, probe, env) then MarkInterrupted(s, k, s.disk[k].row, env) else s
  }

  lemma PassOne(s: State, acc: seq<Entry>, k: Key, rest: seq<Key>, filter: Filter, cursor: Option<SortKey>, probe: bool, env: Env)
    ensures ListPass(s, acc, [k] + rest, filter, cursor, probe, env)
         == ListPass(Passed(s, k, filter, probe, env), acc + Added(s, k, filter, cursor, probe, env), rest, filter, cursor, probe, env)
  {
    assert ([k] + rest)[1..] == rest && ([k] + rest)[0] == k;
    assert acc + [] == acc;
    var row := Shown(s, k, probe, env);
    if row.Some? { CollectIs(acc, k, row.value, filter, cursor); }
  }

  lemma CollectIs(acc: seq<Entry>, k: Key, row: Row, filter: Filter, cursor: Option<SortKey>)
    ensures Collect(acc, k, row, filter, cursor) == acc + Collect([], k, row, filter, cursor)
  {
    assert acc + [] == acc && [] + [EntryOf(k, row)] == [EntryOf(k, row)];
  }

  lemma AddedIs(s: State, k: Key, filter: Filter, cursor: Option<SortKey>, probe: bool, env: Env, x: Entry)
    ensures x in Added(s, k, filter, cursor, probe, env) <==> ListedFor(s, k, filter, cursor, probe, env, x)
    ensures |Added(s, k, filter, cursor, probe, env)| <= 1
    ensures x in Added(s, k, filter, cursor, probe, env) ==> x.key.caller == k.caller && x.key.file == k.turn
  {
  }

  /** Files are passed over independently. */
  lemma OthersShown(s: State, k: Key, j: Key, filter: Filter, probe: bool, env: Env)
    requires j != k
    ensures Shown(Passed(s, k, filter, probe, env), j, probe, env) == Shown(s, j, probe, env)
    ensures Dead(Passed(s, k, filter, probe, env), j, probe, env) == Dead(s, j, probe, env)
    ensures j in Passed(s, k, filter, probe, env).disk <==> j in s.disk
    ensures j in s.disk ==> Passed(s, k, filter, probe, env).disk[j] == s.disk[j]
  {
  }

  // ---- the whole pass ----------------------------------------------------

  ghost predicate Fresh(acc: seq<Entry>, listing: seq<Key>) {
    DistinctKeys(acc) && forall x :: x in acc ==> Key(x.key.caller, x.key.file) !in listing
  }

  lemma FreshMore(acc: seq<Entry>, more: seq<Entry>, k: Key, rest: seq<Key>)
    requires Fresh(acc, [k] + rest) && k !in rest && |more| <= 1
    requires forall x :: x in more ==> Key(x.key.caller, x.key.file) == k
    ensures Fresh(acc + more, rest)
  {
    assert forall x :: x in acc ==> Key(x.key.caller, x.key.file) != k by {
      assert k in [k] + rest;
    }
    assert forall i :: 0 <= i < |acc| ==> acc[i] in acc;
    assert forall i :: 0 <= i < |more| ==> more[i] in more;
    assert forall j :: j in rest ==> j in [k] + rest;
  }

  lemma ListedCons(s: State, k: Key, rest: seq<Key>, filter: Filter, cursor: Option<SortKey>, probe: bool, env: Env, x: Entry)
    requires k !in rest
    ensures Listed(s, [k] + rest, filter, cursor, probe, env, x) <==>
      ListedFor(s, k, filter, cursor, probe, env, x) || Listed(Passed(s, k, filter, probe, env), rest, filter, cursor, probe, env, x)
  {
    forall j | j in rest
      ensures ListedFor(s, j, filter, cursor, probe, env, x) <==> ListedFor(Passed(s, k, filter, probe, env), j, filter, cursor, probe, env, x)
    {
      OthersShown(s, k, j, filter, probe, env);
    }
    assert forall j :: j in [k] + rest <==> j == k || j in rest;
  }

  lemma {:induction false} PassLists(s: State, acc: seq<Entry>, listing: seq<Key>, filter: Filter, cursor: Option<SortKey>,
                                     probe: bool, env: Env)
    requires Distinct(listing) && Fresh(acc, listing)
    ensures var rows := ListPass(s, acc, listing, filter, cursor, probe, env).1;
      DistinctKeys(rows) && forall x :: x in rows <==> x in acc || Listed(s, listing, filter, cursor, probe, env, x)
    decreases |listing|
  {
    if listing != [] {
      var k, rest := listing[0], listing[1..];
      assert listing == [k] + rest && k !in rest;
      var s', more := Passed(s, k, filter, probe, env), Added(s, k, filter, cursor, probe, env);
      PassOne(s, acc, k, rest, filter, cursor, probe, env);
      forall x ensures x in more <==> ListedFor(s, k, filter, cursor, probe, env, x) {
        AddedIs(s, k, filter, cursor, probe, env, x);
      }
      forall x | x in more ensures Key(x.key.caller, x.key.file) == k { AddedIs(s, k, filter, cursor, probe, env, x); }
      assert |more| <= 1;
      FreshMore(acc, more, k, rest);
      PassLists(s', acc + more, rest, filter, cursor, probe, env);
      forall x ensures x in acc + more || Listed(s', rest, filter, cursor, probe, env, x) <==> x in acc || Listed(s, listing, filter, cursor, probe, env, x) {
        ListedCons(s, k, rest, filter, cursor, probe, env, x);
      }
    }
  }

  /** On disk a listing changes exactly the dead receipts of the caller asked for: they are
      marked as shown, unless the write keeps or loses the old file. */
  lemma {:induction false} PassLeaves(s: State, acc: seq<Entry>, listing: seq<Key>, filter: Filter, cursor: Option<SortKey>,
                                      probe: bool, env: Env, k: Key)
    requires Distinct(listing)
    ensures var after := ListPass(s, acc, listing, filter, cursor, probe, env).0;
      && after.tasks == s.tasks && after.inflight == s.inflight && after.execLog == s.execLog
      && (if k in listing && (filter.caller == "" || k.caller == filter.caller) && Dead(s, k, probe, env) && env.Write(k) != KeptOld
          then if env.Write(k) == Written then k in after.disk && after.disk[k] == File(Shown(s, k, probe, env).value, env.now) else k !in after.disk
          else (k in after.disk <==> k in s.disk) && (k in s.disk ==> after.disk[k] == s.disk[k]))
    decreases |listing|
  {
    if listing != [] {
      var j, rest := listing[0], listing[1..];
      assert listing == [j] + rest && j !in rest;
      PassOne(s, acc, j, rest, filter, cursor, probe, env);
      PassLeaves(Passed(s, j, filter, probe, env), acc + Added(s, j, filter, cursor, probe, env), rest, filter, cursor, probe, env, k);
      if k != j { OthersShown(s, j, k, filter, probe, env); }
    }
  }

  // ---- the page ----------------------------------------------------------

  /** The first receipts in order: each is listed, nothing listed is missing before them, and
      there is a next cursor, their last key, exactly when something is left. */
  ghost predicate IsPage(p: Page, limit: nat, listed: Entry -> bool) {
    && p.Page? && |p.entries| <= limit
    && (forall i, j :: 0 <= i < j < |p.entries| ==> Precedes(p.entries[i], p.entries[j]))
    && (forall x :: x in p.entries ==> listed(x))
    && (forall x, y :: listed(x) && x !in p.entries && y in p.entries ==> Precedes(y, x))
    && (p.next.None? <==> forall x :: listed(x) ==> x in p.entries)
    && (p.next.Some? ==> |p.entries| == limit < p.total && p.entries != [] && p.next == Some(p.entries[|p.entries| - 1].key))
    && (p.next.None? ==> p.total == |p.entries|)
  }

  /** A key is that of its row. */
  predicate Keyed(x: Entry) {
    x.key.negCreated == -x.row.createdAt && x.key.turn == x.row.clientTurnId
  }

  lemma KeyOrderIs(a: Entry, b: Entry)
    requires Keyed(a) && Keyed(b)
    ensures KeyLess(a.key, b.key) <==> Precedes(a, b)
  {
  }

  lemma InOrder(sorted: seq<Entry>)
    requires Increasing(sorted) && forall i :: 0 <= i < |sorted| ==> Keyed(sorted[i])
    ensures forall i, j :: 0 <= i < j < |sorted| ==> Precedes(sorted[i], sorted[j])
  {
    forall i, j | 0 <= i < j < |sorted| ensures Precedes(sorted[i], sorted[j]) {
      KeyOrderIs(sorted[i], sorted[j]);
    }
  }

  /** What is not in front stands after it. */
  lemma BehindFront(sorted: seq<Entry>, n: nat, x: Entry, y: Entry)
    requires n <= |sorted| && forall i, j :: 0 <= i < j < |sorted| ==> Precedes(sorted[i], sorted[j])
    requires x in sorted && x !in sorted[..n] && y in sorted[..n]
    ensures Precedes(y, x)
  {
    forall i | 0 <= i < n ensures sorted[i] in sorted[..n] { assert sorted[..n][i] == sorted[i]; }
    var i :| 0 <= i < |sorted| && sorted[i] == x;
    var j :| 0 <= j < n && sorted[..n][j] == y;
    assert sorted[j] == y;
  }

  /** Nothing behind the front is also in it. */
  lemma FrontIsAll(sorted: seq<Entry>, n: nat)
    requires n <= |sorted| && Increasing(sorted)
    ensures n == |sorted| <==> forall x :: x in sorted ==> x in sorted[..n]
  {
    if n < |sorted| {
      var x := sorted[n];
      forall j | 0 <= j < n ensures sorted[..n][j] != x {
        KeyOrder(sorted[j].key, x.key, x.key);
        assert KeyLess(sorted[j].key, sorted[n].key);
      }
      assert x in sorted && x !in sorted[..n];
    } else {
      assert sorted[..n] == sorted;
    }
  }

  lemma CutIsPage(sorted: seq<Entry>, limit: nat, listed: Entry -> bool)
    requires 1 <= limit && Increasing(sorted) && forall x :: x in sorted <==> listed(x)
    requires forall x :: listed(x) ==> Keyed(x)
    ensures IsPage(Cut(sorted, limit), limit, listed)
  {
    var n := |Cut(sorted, limit).entries|;
    assert Cut(sorted, limit).entries == sorted[..n];
    assert forall i :: 0 <= i < |sorted| ==> sorted[i] in sorted;
    InOrder(sorted);
    FrontIsAll(sorted, n);
    FrontIsListed(sorted, n);
    forall x, y | listed(x) && x !in sorted[..n] && y in sorted[..n] ensures Precedes(y, x) {
      BehindFront(sorted, n, x, y);
    }
  }

  lemma FrontIsListed(sorted: seq<Entry>, n: nat)
    requires n <= |sorted|
    ensures forall x :: x in sorted[..n] ==> x in sorted
  {
    assert sorted == sorted[..n] + sorted[n..];
  }

  /** Every page of every listing, on any store: of the readable receipts -- a dead running
      one as interrupted -- those of the caller, status and times asked for, beyond the
      cursor; newest first; the first of them up to the limit, with a cursor for the rest. */
  lemma ListingShows(s: State, listing: seq<Key>, filter: Filter, cursor: Option<SortKey>, limit: int, probe: bool, env: Env)
    requires Distinct(listing)
    ensures var page := ListReceipts(s, listing, filter, cursor, limit, probe, env).1;
      && (page.InvalidLimit? <==> limit < 1 || limit > 100)
      && (page.InvalidCursor? <==> 1 <= limit <= 100 && cursor.Some? && !(1 <= |cursor.value.turn| <= 128 && 1 <= |cursor.value.file| <= 128))
      && (page.Page? ==> IsPage(page, limit, x => Listed(s, listing, filter, cursor, probe, env, x)))
  {
    if 1 <= limit <= MAX_LIMIT && (cursor.Some? ==> CursorOk(cursor.value)) {
      var rows := ListPass(s, [], listing, filter, cursor, probe, env).1;
      PassLists(s, [], listing, filter, cursor, probe, env);
      SortIncreasing(rows);
      CutIsPage(SortEntries(rows), limit, x => Listed(s, listing, filter, cursor, probe, env, x));
    }
  }
}
