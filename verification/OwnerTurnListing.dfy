/** Listing of receipts: filtering, keyset pagination and the summary that walks
    all pages. */
module OwnerTurnListing {
  import opened SafeWrite
  import opened OwnerTurns
  import Ordering

  const MAX_LIMIT: nat := 100

  /** Newest first, then caller, turn id and file name.  The file stands for its
      own name, the injective hash of the turn id. */
  datatype SortKey = SortKey(negCreated: int, caller: string, turn: string, file: string)

  datatype Entry = Entry(key: SortKey, row: Row)

  datatype Filter = Filter(status: Option<Status>, caller: string, after: Option<int>, before: Option<int>)

  datatype Page = InvalidCursor | InvalidLimit | Page(entries: seq<Entry>, total: nat, next: Option<SortKey>)

  predicate KeyLess(a: SortKey, b: SortKey) {
    || a.negCreated < b.negCreated
    || (a.negCreated == b.negCreated
        && (|| Ordering.Less(a.caller, b.caller)
            || (a.caller == b.caller
                && (|| Ordering.Less(a.turn, b.turn)
                    || (a.turn == b.turn && Ordering.Less(a.file, b.file))))))
  }

  function EntryOf(k: Key, row: Row): Entry {
    Entry(SortKey(-row.createdAt, k.caller, row.clientTurnId, k.turn), row)
  }

  predicate Matches(filter: Filter, row: Row) {
    && (filter.status.Some? ==> row.status == filter.status.value)
    && (filter.after.Some? ==> row.createdAt >= filter.after.value)
    && (filter.before.Some? ==> row.createdAt <= filter.before.value)
  }

  predicate BeyondCursor(cursor: Option<SortKey>, key: SortKey) {
    cursor.Some? ==> KeyLess(cursor.value, key)
  }

  /** The checks that decoding a cursor makes on its contents. */
  predicate CursorOk(key: SortKey) {
    1 <= |key.turn| <= 128 && 1 <= |key.file| <= 128
  }

  /** One pass over the files in directory order: end the dead running receipts,
      collect the matching rows. */
  function ListPass(s: State, acc: seq<Entry>, listing: seq<Key>, filter: Filter, cursor: Option<SortKey>,
                    probe: bool, env: Env): (State, seq<Entry>)
    decreases |listing|
  {
    if listing == [] then (s, acc)
    else
      var k := listing[0];
      var row := ReadRow(s.disk, env, k);
      if (filter.caller != "" && k.caller != filter.caller) || row.None?
      then ListPass(s, acc, listing[1..], filter, cursor, probe, env)
      else if row.value.status.Running? && !SeemsLive(s, k, row.value, probe) then
        var s' := MarkInterrupted(s, k, row.value, env);
        ListPass(s', if env.Write(k).Written? then Collect(acc, k, Interrupted(row.value, env.now), filter, cursor) else acc,
                 listing[1..], filter, cursor, probe, env)
      else ListPass(s, Collect(acc, k, row.value, filter, cursor), listing[1..], filter, cursor, probe, env)
  }

  function Collect(acc: seq<Entry>, k: Key, row: Row, filter: Filter, cursor: Option<SortKey>): seq<Entry> {
    if Matches(filter, row) && BeyondCursor(cursor, EntryOf(k, row).key) then acc + [EntryOf(k, row)] else acc
  }

  function Insert(e: Entry, sorted: seq<Entry>): (r: seq<Entry>)
    ensures multiset(r) == multiset(sorted) + multiset{e}
    decreases |sorted|
  {
    if sorted == [] || !KeyLess(sorted[0].key, e.key) then
      assert [e] + sorted == [e] + sorted[..];
      [e] + sorted
    else
      assert sorted == [sorted[0]] + sorted[1..];
      [sorted[0]] + Insert(e, sorted[1..])
  }

  function SortEntries(es: seq<Entry>): (r: seq<Entry>)
    ensures multiset(r) == multiset(es)
    decreases |es|
  {
    if es == [] then []
    else
      assert es == [es[0]] + es[1..];
      Insert(es[0], SortEntries(es[1..]))
  }

  function Cut(rows: seq<Entry>, limit: nat): Page
    requires 1 <= limit
  {
    var page := if |rows| < limit then rows else rows[..limit];
    Page(page, |rows|, if |page| == limit && |rows| > limit then Some(page[|page| - 1].key) else None)
  }

  function ListReceipts(s: State, listing: seq<Key>, filter: Filter, cursor: Option<SortKey>, limit: int,
                        probe: bool, env: Env): (State, Page)
  {
    if !(1 <= limit <= MAX_LIMIT) then (s, InvalidLimit)
    else if cursor.Some? && !CursorOk(cursor.value) then (s, InvalidCursor)
    else
      var (s', rows) := ListPass(s, [], listing, filter, cursor, probe, env);
      (s', Cut(SortEntries(rows), limit))
  }

  // ---- order -------------------------------------------------------------

  lemma KeyOrder(a: SortKey, b: SortKey, c: SortKey)
    ensures !KeyLess(a, a)
    ensures KeyLess(a, b) && KeyLess(b, c) ==> KeyLess(a, c)
    ensures a != b ==> KeyLess(a, b) || KeyLess(b, a)
    ensures !(KeyLess(a, b) && KeyLess(b, a))
  {
    StringOrder(a.caller, b.caller, c.caller);
    StringOrder(a.turn, b.turn, c.turn);
    StringOrder(a.file, b.file, c.file);
  }

  lemma StringOrder(a: string, b: string, c: string)
    ensures !Ordering.Less(a, a)
    ensures Ordering.Less(a, b) && Ordering.Less(b, c) ==> Ordering.Less(a, c)
    ensures a != b ==> Ordering.Less(a, b) || Ordering.Less(b, a)
    ensures !(Ordering.Less(a, b) && Ordering.Less(b, a))
  {
    Ordering.LessIrreflexive(a);
    if a != b { Ordering.LessTotal(a, b); }
    if Ordering.Less(a, b) && Ordering.Less(b, c) { Ordering.LessTransitive(a, b, c); }
    if Ordering.Less(a, b) && Ordering.Less(b, a) { Ordering.LessTransitive(a, b, a); }
  }

  predicate Increasing(es: seq<Entry>) {
    forall i, j :: 0 <= i < j < |es| ==> KeyLess(es[i].key, es[j].key)
  }

  predicate DistinctKeys(es: seq<Entry>) {
    forall i, j :: 0 <= i < j < |es| ==> es[i].key != es[j].key
  }

  lemma {:induction false} InsertIncreasing(e: Entry, sorted: seq<Entry>)
    requires Increasing(sorted) && forall i :: 0 <= i < |sorted| ==> sorted[i].key != e.key
    ensures Increasing(Insert(e, sorted))
    ensures forall x :: x in Insert(e, sorted) <==> x == e || x in sorted
    decreases |sorted|
  {
    if sorted != [] {
      KeyOrder(sorted[0].key, e.key, e.key);
      if KeyLess(sorted[0].key, e.key) {
        assert sorted == [sorted[0]] + sorted[1..];
        InsertIncreasing(e, sorted[1..]);
        var r := Insert(e, sorted[1..]);
        forall j | 0 <= j < |r| ensures KeyLess(sorted[0].key, r[j].key) {
          assert r[j] in r;
          assert r[j] == e || r[j] in sorted[1..];
        }
        var q := Insert(e, sorted);
        assert q == [sorted[0]] + r;
      } else {
        forall i | 0 <= i < |sorted| ensures KeyLess(e.key, sorted[i].key) {
          KeyOrder(e.key, sorted[0].key, sorted[i].key);
        }
      }
    }
  }

  lemma {:induction false} SortIncreasing(es: seq<Entry>)
    requires DistinctKeys(es)
    ensures Increasing(SortEntries(es))
    ensures forall x :: x in SortEntries(es) <==> x in es
    decreases |es|
  {
    if es != [] {
      SortIncreasing(es[1..]);
      var rest := SortEntries(es[1..]);
      forall i | 0 <= i < |rest| ensures rest[i].key != es[0].key {
        assert rest[i] in rest;
        assert rest[i] in es[1..];
      }
      InsertIncreasing(es[0], rest);
      assert es == [es[0]] + es[1..];
    }
  }

  /** A set of entries has only one increasing listing. */
  lemma {:induction false} IncreasingUnique(a: seq<Entry>, b: seq<Entry>)
    requires Increasing(a) && Increasing(b) && forall x :: x in a <==> x in b
    ensures a == b
    decreases |a|
  {
    if a == [] {
      assert forall i :: 0 <= i < |b| ==> b[i] in b;
    } else {
      assert a[0] in b;
      if b[0] != a[0] {
        assert b[0] in a;
        var i :| 0 <= i < |a| && a[i] == b[0];
        var j :| 0 <= j < |b| && b[j] == a[0];
        KeyOrder(a[0].key, b[0].key, a[0].key);
        assert false;
      }
      forall x ensures x in a[1..] <==> x in b[1..] {
        KeyOrder(a[0].key, a[0].key, a[0].key);
        if x in a[1..] {
          var i :| 0 <= i < |a[1..]| && a[1..][i] == x;
          assert KeyLess(a[0].key, a[i + 1].key) && x in a;
          var j :| 0 <= j < |b| && b[j] == x;
          assert j != 0;
          assert b[1..][j - 1] == x;
        }
        if x in b[1..] {
          var i :| 0 <= i < |b[1..]| && b[1..][i] == x;
          assert KeyLess(b[0].key, b[i + 1].key) && x in b;
          var j :| 0 <= j < |a| && a[j] == x;
          assert j != 0;
          assert a[1..][j - 1] == x;
        }
      }
      IncreasingUnique(a[1..], b[1..]);
    }
  }

  // ---- pages of a stable store -------------------------------------------

  /** Nothing to recover: every readable running receipt listed has a live task, and
      every readable file is filed under its own non-empty turn id.  Files that are
      gone or cannot be read may be listed too; they are passed over. */
  ghost predicate Stable(s: State, listing: seq<Key>, probe: bool, env: Env) {
    && (forall i, j :: 0 <= i < j < |listing| ==> listing[i] != listing[j])
    && (forall k :: k in listing && ReadRow(s.disk, env, k).Some? ==>
          && 1 <= |s.disk[k].row.clientTurnId| <= 128 && 1 <= |k.turn| <= 128
          && (s.disk[k].row.status.Running? ==> SeemsLive(s, k, s.disk[k].row, probe)))
  }

  /** The readable receipts a filter selects, whatever page they are on. */
  ghost predicate Selected(s: State, env: Env, listing: seq<Key>, filter: Filter, k: Key) {
    && k in listing && ReadRow(s.disk, env, k).Some? && (filter.caller == "" || k.caller == filter.caller)
    && Matches(filter, s.disk[k].row)
  }

  ghost predicate OnPage(s: State, env: Env, listing: seq<Key>, filter: Filter, cursor: Option<SortKey>, x: Entry) {
    exists k :: Selected(s, env, listing, filter, k) && x == EntryOf(k, s.disk[k].row) && BeyondCursor(cursor, x.key)
  }

  lemma OnPageHead(s: State, env: Env, listing: seq<Key>, filter: Filter, cursor: Option<SortKey>, x: Entry)
    requires listing != []
    ensures OnPage(s, env, listing, filter, cursor, x) <==>
      OnPage(s, env, [listing[0]], filter, cursor, x) || OnPage(s, env, listing[1..], filter, cursor, x)
  {
    assert listing == [listing[0]] + listing[1..];
    forall k ensures Selected(s, env, listing, filter, k) <==>
      Selected(s, env, [listing[0]], filter, k) || Selected(s, env, listing[1..], filter, k) {}
  }

  lemma {:induction false} ListPassCollects(s: State, acc: seq<Entry>, listing: seq<Key>, filter: Filter,
                                            cursor: Option<SortKey>, probe: bool, env: Env)
    requires Stable(s, listing, probe, env)
    requires DistinctKeys(acc)
    requires forall i :: 0 <= i < |acc| ==> Key(acc[i].key.caller, acc[i].key.file) !in listing
    ensures var (s', rows) := ListPass(s, acc, listing, filter, cursor, probe, env);
      s' == s && DistinctKeys(rows) && (forall x :: x in rows <==> x in acc || OnPage(s, env, listing, filter, cursor, x))
    decreases |listing|
  {
    if listing != [] {
      var k := listing[0];
      assert k in listing && forall j :: j in listing[1..] ==> j in listing;
      var row := ReadRow(s.disk, env, k);
      var acc' := if (filter.caller != "" && k.caller != filter.caller) || row.None? then acc else Collect(acc, k, row.value, filter, cursor);
      forall x ensures x in acc' <==> x in acc || OnPage(s, env, [k], filter, cursor, x) {
        assert Selected(s, env, [k], filter, k) <==> row.Some? && (filter.caller == "" || k.caller == filter.caller) && Matches(filter, row.value);
        assert forall j :: Selected(s, env, [k], filter, j) ==> j == k;
      }
      assert ListPass(s, acc, listing, filter, cursor, probe, env) == ListPass(s, acc', listing[1..], filter, cursor, probe, env);
      ListPassCollects(s, acc', listing[1..], filter, cursor, probe, env);
      forall x ensures x in acc' || OnPage(s, env, listing[1..], filter, cursor, x) <==> x in acc || OnPage(s, env, listing, filter, cursor, x) {
        OnPageHead(s, env, listing, filter, cursor, x);
      }
    }
  }

  /** All matching receipts in sort order. */
  function Everything(s: State, listing: seq<Key>, filter: Filter, probe: bool, env: Env): seq<Entry> {
    SortEntries(ListPass(s, [], listing, filter, None, probe, env).1)
  }

  lemma EverythingIsExact(s: State, listing: seq<Key>, filter: Filter, probe: bool, env: Env)
    requires Stable(s, listing, probe, env)
    ensures var all := Everything(s, listing, filter, probe, env);
      && Increasing(all)
      && (forall x :: x in all <==> OnPage(s, env, listing, filter, None, x))
      && (forall i :: 0 <= i < |all| ==> CursorOk(all[i].key))
  {
    ListPassCollects(s, [], listing, filter, None, probe, env);
    var all := Everything(s, listing, filter, probe, env);
    SortIncreasing(ListPass(s, [], listing, filter, None, probe, env).1);
    forall i | 0 <= i < |all| ensures CursorOk(all[i].key) {
      assert OnPage(s, env, listing, filter, None, all[i]);
    }
  }

  /** Asking with the key of the i-th receipt lists what comes after it. */
  lemma PageAfter(s: State, listing: seq<Key>, filter: Filter, probe: bool, env: Env, i: nat)
    requires Stable(s, listing, probe, env)
    requires i <= |Everything(s, listing, filter, probe, env)|
    ensures var all := Everything(s, listing, filter, probe, env);
      var cursor := if i == 0 then None else Some(all[i - 1].key);
      ListPass(s, [], listing, filter, cursor, probe, env).0 == s
      && SortEntries(ListPass(s, [], listing, filter, cursor, probe, env).1) == all[i..]
  {
    var all := Everything(s, listing, filter, probe, env);
    var cursor := if i == 0 then None else Some(all[i - 1].key);
    var rows := ListPass(s, [], listing, filter, cursor, probe, env).1;
    EverythingIsExact(s, listing, filter, probe, env);
    ListPassCollects(s, [], listing, filter, cursor, probe, env);
    SortIncreasing(rows);
    forall x ensures x in SortEntries(rows) <==> x in all[i..] {
      assert OnPage(s, env, listing, filter, cursor, x) <==> OnPage(s, env, listing, filter, None, x) && BeyondCursor(cursor, x.key);
      AfterIndex(all, i, x);
    }
    IncreasingUnique(SortEntries(rows), all[i..]);
  }

  lemma AfterIndex(all: seq<Entry>, i: nat, x: Entry)
    requires Increasing(all) && i <= |all|
    ensures x in all[i..] <==> x in all && (i > 0 ==> KeyLess(all[i - 1].key, x.key))
  {
    if x in all[i..] {
      var j :| 0 <= j < |all[i..]| && all[i..][j] == x;
      assert all[i + j] == x;
    }
    if x in all && (i > 0 ==> KeyLess(all[i - 1].key, x.key)) {
      var j :| 0 <= j < |all| && all[j] == x;
      if j < i {
        KeyOrder(all[i - 1].key, all[j].key, x.key);
        assert false;
      }
      assert all[i..][j - i] == x;
    }
  }

  /** A client that follows `next` from the first page; `ask` answers a cursor. */
  ghost predicate IsWalk(pages: seq<Page>, ask: Option<SortKey> -> Page) {
    && pages != []
    && (forall i :: 0 <= i < |pages| ==> pages[i].Page?)
    && pages[0] == ask(None)
    && (forall i :: 0 < i < |pages| ==> FollowsAt(pages, ask, i))
  }

  ghost predicate FollowsAt(pages: seq<Page>, ask: Option<SortKey> -> Page, i: nat)
    requires 0 < i < |pages| && pages[i - 1].Page?
  {
    pages[i - 1].next.Some? && pages[i] == ask(pages[i - 1].next)
  }

  function CursorAt(all: seq<Entry>, i: nat): Option<SortKey>
    requires i <= |all|
  {
    if i == 0 then None else Some(all[i - 1].key)
  }

  /** The answers of a store that holds exactly `all`. */
  ghost predicate Serves(ask: Option<SortKey> -> Page, all: seq<Entry>, limit: nat) {
    1 <= limit && forall i :: 0 <= i <= |all| ==> ask(CursorAt(all, i)) == Cut(all[i..], limit)
  }

  function Entries(pages: seq<Page>): seq<Entry>
    requires forall i :: 0 <= i < |pages| ==> pages[i].Page?
    decreases |pages|
  {
    if pages == [] then [] else Entries(pages[..|pages| - 1]) + pages[|pages| - 1].entries
  }

  /** A stable store serves its matching receipts in sort order, for every limit. */
  lemma StableStoreServes(s: State, listing: seq<Key>, filter: Filter, limit: int, probe: bool, env: Env)
    requires Stable(s, listing, probe, env) && 1 <= limit <= MAX_LIMIT
    ensures Serves(c => ListReceipts(s, listing, filter, c, limit, probe, env).1,
                   Everything(s, listing, filter, probe, env), limit)
  {
    var all := Everything(s, listing, filter, probe, env);
    EverythingIsExact(s, listing, filter, probe, env);
    forall i | 0 <= i <= |all|
      ensures ListReceipts(s, listing, filter, CursorAt(all, i), limit, probe, env).1 == Cut(all[i..], limit)
    {
      PageAfter(s, listing, filter, probe, env, i);
    }
  }

  /** Where a walk stands after n pages: it has listed a prefix of `all`; the whole
      of it if there is no cursor, else at least n receipts up to the cursor. */
  ghost predicate Progress(listed: seq<Entry>, next: Option<SortKey>, n: nat, all: seq<Entry>) {
    && |listed| <= |all| && listed == all[..|listed|]
    && (next.None? ==> listed == all)
    && (next.Some? ==> n <= |listed| < |all| && |listed| > 0 && next == Some(all[|listed| - 1].key))
  }

  lemma ProgressStep(listed: seq<Entry>, n: nat, all: seq<Entry>, limit: nat)
    requires |listed| <= |all| && listed == all[..|listed|] && n <= |listed| && 1 <= limit
    ensures var page := Cut(all[|listed|..], limit);
      Progress(listed + page.entries, page.next, n + 1, all)
  {
    var page := Cut(all[|listed|..], limit);
    var m := |listed| + |page.entries|;
    assert all[..|listed|] + all[|listed|..][..|page.entries|] == all[..m];
  }

  lemma FrontOfWalk(pages: seq<Page>, ask: Option<SortKey> -> Page)
    requires IsWalk(pages, ask) && |pages| > 1
    ensures IsWalk(pages[..|pages| - 1], ask)
    ensures pages[|pages| - 2].next.Some? && pages[|pages| - 1] == ask(pages[|pages| - 2].next)
  {
    var front := pages[..|pages| - 1];
    forall i | 0 < i < |front| ensures FollowsAt(front, ask, i) {
      assert FollowsAt(pages, ask, i);
    }
    assert FollowsAt(pages, ask, |pages| - 1);
  }

  lemma {:induction false} WalkProgress(pages: seq<Page>, ask: Option<SortKey> -> Page, all: seq<Entry>, limit: nat)
    requires Serves(ask, all, limit) && IsWalk(pages, ask)
    ensures Progress(Entries(pages), pages[|pages| - 1].next, |pages|, all)
    decreases |pages|
  {
    var n := |pages| - 1;
    if n == 0 {
      assert Entries(pages[..0]) == [];
      assert pages[0] == ask(CursorAt(all, 0)) && all[0..] == all;
      ProgressStep([], 0, all, limit);
    } else {
      var front := pages[..n];
      FrontOfWalk(pages, ask);
      WalkProgress(front, ask, all, limit);
      assert pages[n] == ask(CursorAt(all, |Entries(front)|));
      ProgressStep(Entries(front), n, all, limit);
    }
  }

  lemma WalkComplete(pages: seq<Page>, ask: Option<SortKey> -> Page, all: seq<Entry>, limit: nat)
    requires Serves(ask, all, limit) && IsWalk(pages, ask)
    ensures Entries(pages) <= all
    ensures pages[|pages| - 1].next.None? <==> Entries(pages) == all
    ensures |pages| <= |all| + 1
  {
    WalkProgress(pages, ask, all, limit);
    if |pages| > 1 {
      FrontOfWalk(pages, ask);
      WalkProgress(pages[..|pages| - 1], ask, all, limit);
    }
  }

  /** On a stable store and whatever the page limit, a walk lists matching receipts
      in sort order, each once; it has listed them all exactly when there is no
      further cursor, and it has no more pages than receipts, plus one. */
  lemma WalkListsEachOnce(pages: seq<Page>, s: State, listing: seq<Key>, filter: Filter, limit: int, probe: bool, env: Env)
    requires Stable(s, listing, probe, env) && 1 <= limit <= MAX_LIMIT
    requires IsWalk(pages, c => ListReceipts(s, listing, filter, c, limit, probe, env).1)
    ensures var all := Everything(s, listing, filter, probe, env); var listed := Entries(pages);
      && listed <= all && Increasing(all)
      && (forall x :: x in all <==> OnPage(s, env, listing, filter, None, x))
      && (pages[|pages| - 1].next.None? <==> listed == all)
      && |pages| <= |all| + 1
  {
    var all := Everything(s, listing, filter, probe, env);
    EverythingIsExact(s, listing, filter, probe, env);
    StableStoreServes(s, listing, filter, limit, probe, env);
    WalkComplete(pages, c => ListReceipts(s, listing, filter, c, limit, probe, env).1, all, limit);
  }
}
