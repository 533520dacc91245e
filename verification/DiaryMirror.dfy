/** The server mirror of dated diary entries: a manifest of revisions beside one
    content file for each date. */
module DiaryMirror {
  import opened SafeWrite
  import opened Ordering

  /** A manifest row; the revision is stored as text whatever it came as. */
  datatype Row = Row(sha: string, revision: string, deleted: bool)

  /** A validated batch item. */
  datatype Item = Item(date: string, sha: string, revision: string, deleted: bool, content: string)

  /** What validation established: the digest of live content, no content when deleted. */
  ghost predicate Valid(items: seq<Item>, hash: string -> string) {
    forall i :: 0 <= i < |items| ==> if items[i].deleted then items[i].content == "" else items[i].sha == hash(items[i].content)
  }

  datatype Manifest = Manifest(active: Option<string>, rows: map<string, Row>)

  datatype Disk = Disk(manifest: Option<Manifest>, files: map<string, string>)

  function RowsOf(d: Disk): map<string, Row> {
    if d.manifest.Some? then d.manifest.value.rows else map[]
  }

  // ---- Judging an item ---------------------------------------------------

  datatype Verdict = Applied | Idempotent | Stale | Conflict

  /** Both readable as numbers: by value; both not: as texts; else not comparable. */
  predicate Comparable(a: string, b: string, number: string -> Option<real>) {
    number(a).Some? <==> number(b).Some?
  }

  predicate Newer(a: string, b: string, number: string -> Option<real>) {
    && Comparable(a, b, number)
    && if number(a).Some? then number(a).value > number(b).value else Less(b, a)
  }

  function Judge(rows: map<string, Row>, it: Item, number: string -> Option<real>): Verdict {
    if it.date !in rows then Applied
    else
      var row := rows[it.date];
      if it.sha == row.sha && it.deleted == row.deleted then Idempotent
      else if !Comparable(it.revision, row.revision, number) || Newer(it.revision, row.revision, number) then Applied
      else if Newer(row.revision, it.revision, number) then Stale
      else Conflict
  }

  function RowOf(it: Item): Row {
    Row(it.sha, it.revision, it.deleted)
  }

  // ---- A batch -----------------------------------------------------------

  datatype Work = Work(rows: map<string, Row>, files: map<string, string>, verdicts: seq<Verdict>, failed: bool)

  function Take(w: Work, it: Item, ok: bool, number: string -> Option<real>): Work {
    var verdict := Judge(w.rows, it, number);
    if w.failed then w
    else if !verdict.Applied? then w.(verdicts := w.verdicts + [verdict])
    else if !it.deleted && !ok then w.(failed := true)
    else w.(rows := w.rows[it.date := RowOf(it)],
            files := if it.deleted then w.files else w.files[it.date := it.content],
            verdicts := w.verdicts + [verdict])
  }

  /** The item loop; `writes[i]` says whether the file write of item i succeeds,
      and writes not listed do. */
  function TakeAll(rows: map<string, Row>, files: map<string, string>, items: seq<Item>, writes: seq<bool>, number: string -> Option<real>): Work
    decreases |items|
  {
    if items == [] then Work(rows, files, [], false)
    else
      var n := |items| - 1;
      Take(TakeAll(rows, files, items[..n], writes, number), items[n], n >= |writes| || writes[n], number)
  }

  /** The disk after one batch, and whether the caller got a result or an error. */
  function Batch(d: Disk, generation: string, items: seq<Item>, writes: seq<bool>, manifestWrite: WriteOutcome, statusWrite: bool,
                 number: string -> Option<real>): (Disk, Option<seq<Verdict>>)
  {
    var w := TakeAll(RowsOf(d), d.files, items, writes, number);
    if w.failed then (Disk(d.manifest, w.files), None)
    else
      var after := Disk(Replace(d.manifest, Manifest(Some(generation), w.rows), manifestWrite), w.files);
      (after, if manifestWrite.Written? && statusWrite then Some(w.verdicts) else None)
  }

  /** The same batch with every write succeeding. */
  function Unfailed(d: Disk, generation: string, items: seq<Item>, number: string -> Option<real>): Disk {
    Batch(d, generation, items, [], Written, true, number).0
  }

  // ---- The batch as it runs ----------------------------------------------

  class Mirror {
    var manifest: Option<Manifest>
    var files: map<string, string>

    ghost function Abs(): Disk
      reads this
    {
      Disk(manifest, files)
    }

    constructor (manifest: Option<Manifest>, files: map<string, string>)
      ensures Abs() == Disk(manifest, files)
    {
      this.manifest, this.files := manifest, files;
    }

    /** Files are written one by one as items apply; the manifest only at the end. */
    method ApplyBatch(generation: string, items: seq<Item>, writes: seq<bool>, manifestWrite: WriteOutcome, statusWrite: bool,
                      number: string -> Option<real>)
      returns (results: Option<seq<Verdict>>)
      modifies this
      ensures (Abs(), results) == Batch(old(Abs()), generation, items, writes, manifestWrite, statusWrite, number)
    {
      var rows := if manifest.Some? then manifest.value.rows else map[];
      ghost var rows0, files0 := rows, files;
      var verdicts: seq<Verdict> := [];
      for i := 0 to |items|
        invariant manifest == old(manifest)
        invariant TakeAll(rows0, files0, items[..i], writes, number) == Work(rows, files, verdicts, false)
      {
        assert items[..i + 1][..i] == items[..i];
        var it := items[i];
        var verdict := Judge(rows, it, number);
        if verdict.Applied? {
          if !it.deleted {
            if i < |writes| && !writes[i] {
              FailedStays(rows0, files0, items, i + 1, writes, number);
              return None;
            }
            files := files[it.date := it.content];
          }
          rows := rows[it.date := RowOf(it)];
        }
        verdicts := verdicts + [verdict];
      }
      assert items[..|items|] == items;
      match manifestWrite
      case Written =>
        manifest := Some(Manifest(Some(generation), rows));
        results := if statusWrite then Some(verdicts) else None;
      case KeptOld =>
        results := None;
      case LostOld =>
        manifest := None;
        results := None;
    }
  }

  lemma {:induction false} FailedStays(rows: map<string, Row>, files: map<string, string>, items: seq<Item>, n: nat, writes: seq<bool>, number: string -> Option<real>)
    requires n <= |items| && TakeAll(rows, files, items[..n], writes, number).failed
    ensures TakeAll(rows, files, items, writes, number) == TakeAll(rows, files, items[..n], writes, number)
    decreases |items|
  {
    if n < |items| {
      var front := items[..|items| - 1];
      assert front[..n] == items[..n];
      FailedStays(rows, files, front, n, writes, number);
    } else {
      assert items[..n] == items;
    }
  }

  // ---- What a batch does, apart from files and failures ------------------

  function NewRows(rows: map<string, Row>, items: seq<Item>, number: string -> Option<real>): map<string, Row>
    decreases |items|
  {
    if items == [] then rows
    else
      var n := |items| - 1;
      var front := NewRows(rows, items[..n], number);
      if Judge(front, items[n], number).Applied? then front[items[n].date := RowOf(items[n])] else front
  }

  /** The contents written, the last for each date. */
  function Contents(rows: map<string, Row>, items: seq<Item>, number: string -> Option<real>): map<string, string>
    decreases |items|
  {
    if items == [] then map[]
    else
      var n := |items| - 1;
      var front, it := Contents(rows, items[..n], number), items[n];
      if Judge(NewRows(rows, items[..n], number), it, number).Applied? && !it.deleted then front[it.date := it.content] else front
  }

  /** The loop has done the first |w.verdicts| items, and all of them unless it failed. */
  ghost predicate Done(w: Work, rows: map<string, Row>, files: map<string, string>, items: seq<Item>, number: string -> Option<real>) {
    var n := |w.verdicts|;
    && n <= |items|
    && w.rows == NewRows(rows, items[..n], number)
    && w.files == files + Contents(rows, items[..n], number)
    && (if w.failed then n < |items| else n == |items|)
  }

  lemma FrontOf(front: seq<Item>, it: Item)
    ensures (front + [it])[..|front|] == front && front[..|front|] == front && (front + [it])[..|front| + 1] == front + [it]
  {
  }

  lemma WriteOver(files: map<string, string>, written: map<string, string>, date: string, content: string)
    ensures (files + written)[date := content] == files + written[date := content]
  {
  }

  lemma NewRowsSnoc(rows: map<string, Row>, front: seq<Item>, it: Item, number: string -> Option<real>)
    ensures var before := NewRows(rows, front, number); var applies := Judge(before, it, number).Applied?;
      && NewRows(rows, front + [it], number) == (if applies then before[it.date := RowOf(it)] else before)
      && Contents(rows, front + [it], number)
        == if applies && !it.deleted then Contents(rows, front, number)[it.date := it.content] else Contents(rows, front, number)
  {
    assert (front + [it])[..|front|] == front;
  }

  lemma TakeDone(w: Work, rows: map<string, Row>, files: map<string, string>, front: seq<Item>, it: Item, ok: bool, number: string -> Option<real>)
    requires Done(w, rows, files, front, number) && !w.failed
    ensures Done(Take(w, it, ok, number), rows, files, front + [it], number)
  {
    FrontOf(front, it);
    NewRowsSnoc(rows, front, it, number);
    WriteOver(files, Contents(rows, front, number), it.date, it.content);
  }

  lemma {:induction false} TakeAllIs(rows: map<string, Row>, files: map<string, string>, items: seq<Item>, writes: seq<bool>, number: string -> Option<real>)
    ensures Done(TakeAll(rows, files, items, writes, number), rows, files, items, number)
    decreases |items|
  {
    if items == [] {
      assert files + map[] == files;
    } else {
      var n := |items| - 1;
      TakeAllIs(rows, files, items[..n], writes, number);
      var w := TakeAll(rows, files, items[..n], writes, number);
      assert items == items[..n] + [items[n]];
      if w.failed {
        assert items[..n][..|w.verdicts|] == items[..|w.verdicts|];
      } else {
        TakeDone(w, rows, files, items[..n], items[n], n >= |writes| || writes[n], number);
      }
    }
  }

  lemma {:induction false} NoFailures(rows: map<string, Row>, files: map<string, string>, items: seq<Item>, number: string -> Option<real>)
    ensures !TakeAll(rows, files, items, [], number).failed
    decreases |items|
  {
    if items != [] { NoFailures(rows, files, items[..|items| - 1], number); }
  }

  lemma UnfailedIs(d: Disk, generation: string, items: seq<Item>, number: string -> Option<real>)
    ensures Unfailed(d, generation, items, number)
         == Disk(Some(Manifest(Some(generation), NewRows(RowsOf(d), items, number))), d.files + Contents(RowsOf(d), items, number))
  {
    NoFailures(RowsOf(d), d.files, items, number);
    TakeAllIs(RowsOf(d), d.files, items, [], number);
    assert items[..|items|] == items;
  }

  lemma {:induction false} ContentsGrow(rows: map<string, Row>, items: seq<Item>, n: nat, number: string -> Option<real>)
    requires n <= |items|
    ensures Contents(rows, items[..n], number).Keys <= Contents(rows, items, number).Keys
    decreases |items|
  {
    if n < |items| {
      var front := items[..|items| - 1];
      assert front[..n] == items[..n];
      ContentsGrow(rows, front, n, number);
    } else {
      assert items[..n] == items;
    }
  }

  // ---- Main results ------------------------------------------------------

  /** Every live row has its content file, and the file's digest is the row's. */
  ghost predicate Consistent(rows: map<string, Row>, files: map<string, string>, hash: string -> string) {
    forall date :: date in rows && !rows[date].deleted ==> date in files && hash(files[date]) == rows[date].sha
  }

  lemma {:induction false} BatchConsistent(rows: map<string, Row>, files: map<string, string>, items: seq<Item>, hash: string -> string, number: string -> Option<real>)
    requires Consistent(rows, files, hash) && Valid(items, hash)
    ensures Consistent(NewRows(rows, items, number), files + Contents(rows, items, number), hash)
    decreases |items|
  {
    if items == [] {
      assert files + map[] == files;
    } else {
      var n := |items| - 1;
      BatchConsistent(rows, files, items[..n], hash, number);
    }
  }

  /** A batch without write failures keeps manifest and files in agreement. */
  lemma UnfailedKeepsConsistent(d: Disk, generation: string, items: seq<Item>, hash: string -> string, number: string -> Option<real>)
    requires Consistent(RowsOf(d), d.files, hash) && Valid(items, hash)
    ensures var e := Unfailed(d, generation, items, number); Consistent(RowsOf(e), e.files, hash)
  {
    UnfailedIs(d, generation, items, number);
    BatchConsistent(RowsOf(d), d.files, items, hash, number);
  }

  /** A call none of whose content or manifest writes fails. */
  predicate Clean(c: Call) {
    c.manifestWrite.Written? && forall i :: 0 <= i < |c.writes| ==> c.writes[i]
  }

  lemma {:induction false} CleanTakes(rows: map<string, Row>, files: map<string, string>, items: seq<Item>, writes: seq<bool>, number: string -> Option<real>)
    requires forall i :: 0 <= i < |writes| ==> writes[i]
    ensures TakeAll(rows, files, items, writes, number) == TakeAll(rows, files, items, [], number)
    decreases |items|
  {
    if items != [] { CleanTakes(rows, files, items[..|items| - 1], writes, number); }
  }

  /** Over any run without write failures manifest and files stay in agreement. */
  lemma {:induction false} RunKeepsConsistent(d: Disk, calls: seq<Call>, hash: string -> string, number: string -> Option<real>)
    requires Consistent(RowsOf(d), d.files, hash)
    requires forall k :: 0 <= k < |calls| ==> Clean(calls[k]) && Valid(calls[k].items, hash)
    ensures var e := Run(d, calls, number); Consistent(RowsOf(e), e.files, hash)
    decreases |calls|
  {
    if calls != [] {
      var n := |calls| - 1;
      RunKeepsConsistent(d, calls[..n], hash, number);
      var e, c := Run(d, calls[..n], number), calls[n];
      CleanTakes(RowsOf(e), e.files, c.items, c.writes, number);
      NoFailures(RowsOf(e), e.files, c.items, number);
      assert Apply(e, c, number) == Unfailed(e, c.generation, c.items, number);
      UnfailedKeepsConsistent(e, c.generation, c.items, hash, number);
    }
  }

  /** After any failure that did not lose the manifest file -- a content write, the
      manifest or the status -- sending the same batch again reaches exactly the disk
      an unfailed run would have reached; after a failed status write that needs the
      batch to name each date once. */
  lemma RetryReachesUnfailed(d: Disk, generation: string, items: seq<Item>, writes: seq<bool>, manifestWrite: WriteOutcome, statusWrite: bool,
                             number: string -> Option<real>)
    requires var w := TakeAll(RowsOf(d), d.files, items, writes, number);
      w.failed || manifestWrite.KeptOld? || (manifestWrite.Written? && DistinctDates(items))
    ensures var e := Batch(d, generation, items, writes, manifestWrite, statusWrite, number).0;
      Unfailed(e, generation, items, number) == Unfailed(d, generation, items, number)
  {
    var rows := RowsOf(d);
    var w := TakeAll(rows, d.files, items, writes, number);
    TakeAllIs(rows, d.files, items, writes, number);
    if w.failed || manifestWrite.KeptOld? {
      RetryUnsaved(d, w.files, generation, items, |w.verdicts|, number);
    } else {
      assert items[..|items|] == items;
      UnfailedIs(d, generation, items, number);
      RetrySaved(d, generation, items, number);
    }
  }

  lemma Overwritten(files: map<string, string>, some: map<string, string>, all: map<string, string>)
    requires some.Keys <= all.Keys
    ensures (files + some) + all == files + all
  {
  }

  /** Only contents were written: the retry judges alike and writes them all again. */
  lemma RetryUnsaved(d: Disk, files: map<string, string>, generation: string, items: seq<Item>, n: nat, number: string -> Option<real>)
    requires n <= |items| && files == d.files + Contents(RowsOf(d), items[..n], number)
    ensures Unfailed(Disk(d.manifest, files), generation, items, number) == Unfailed(d, generation, items, number)
  {
    UnfailedIs(d, generation, items, number);
    UnfailedIs(Disk(d.manifest, files), generation, items, number);
    ContentsGrow(RowsOf(d), items, n, number);
    Overwritten(d.files, Contents(RowsOf(d), items[..n], number), Contents(RowsOf(d), items, number));
  }

  lemma RetrySaved(d: Disk, generation: string, items: seq<Item>, number: string -> Option<real>)
    requires DistinctDates(items)
    ensures var e := Unfailed(d, generation, items, number); Unfailed(e, generation, items, number) == e
  {
    var e := Unfailed(d, generation, items, number);
    UnfailedIs(d, generation, items, number);
    UnfailedIs(e, generation, items, number);
    ReplayChangesNothing(RowsOf(d), items, number);
    assert e.files + map[] == e.files;
  }

  predicate DistinctDates(items: seq<Item>) {
    forall i, j :: 0 <= i < j < |items| ==> items[i].date != items[j].date
  }

  lemma {:induction false} RowAfter(rows: map<string, Row>, items: seq<Item>, i: nat, number: string -> Option<real>)
    requires DistinctDates(items) && i < |items|
    ensures var after := NewRows(rows, items, number); var it := items[i];
      if Judge(rows, it, number).Applied? then it.date in after && after[it.date] == RowOf(it)
      else it.date in rows && it.date in after && after[it.date] == rows[it.date]
    decreases |items|
  {
    var n := |items| - 1;
    if i < n {
      RowAfter(rows, items[..n], i, number);
      assert items[n].date != items[i].date;
    } else {
      OtherDates(rows, items[..n], items[n].date, number);
    }
  }

  /** Dates a batch does not name keep their row and their file. */
  lemma {:induction false} OtherDates(rows: map<string, Row>, items: seq<Item>, date: string, number: string -> Option<real>)
    requires forall k :: 0 <= k < |items| ==> items[k].date != date
    ensures date !in Contents(rows, items, number)
    ensures date in NewRows(rows, items, number) <==> date in rows
    ensures date in rows ==> NewRows(rows, items, number)[date] == rows[date]
    decreases |items|
  {
    if items != [] { OtherDates(rows, items[..|items| - 1], date, number); }
  }

  lemma {:induction false} NothingApplies(rows: map<string, Row>, items: seq<Item>, number: string -> Option<real>)
    requires forall k :: 0 <= k < |items| ==> !Judge(rows, items[k], number).Applied?
    ensures NewRows(rows, items, number) == rows && Contents(rows, items, number) == map[]
    decreases |items|
  {
    if items != [] { NothingApplies(rows, items[..|items| - 1], number); }
  }

  /** A batch that names each date once can be sent again: no row and no file changes. */
  lemma ReplayChangesNothing(rows: map<string, Row>, items: seq<Item>, number: string -> Option<real>)
    requires DistinctDates(items)
    ensures var after := NewRows(rows, items, number);
      NewRows(after, items, number) == after && Contents(after, items, number) == map[]
  {
    var after := NewRows(rows, items, number);
    forall k | 0 <= k < |items| ensures !Judge(after, items[k], number).Applied? {
      RowAfter(rows, items, k, number);
    }
    NothingApplies(after, items, number);
  }

  predicate SameContent(a: Item, b: Item) {
    a.sha == b.sha && a.deleted == b.deleted
  }

  /** An earlier item with other content and a newer revision than a later one of its date. */
  predicate Overtakes(items: seq<Item>, i: int, j: int, number: string -> Option<real>) {
    0 <= i < j < |items| && items[i].date == items[j].date
    && !SameContent(items[i], items[j]) && Newer(items[i].revision, items[j].revision, number)
  }

  ghost predicate NoOvertakes(items: seq<Item>, number: string -> Option<real>) {
    forall i, j :: 0 <= i < j < |items| ==> !Overtakes(items, i, j, number)
  }

  /** For each date the items and the stored row have revisions of one kind. */
  ghost predicate OneKind(rows: map<string, Row>, items: seq<Item>, number: string -> Option<real>) {
    && (forall i :: 0 <= i < |items| && items[i].date in rows ==> Comparable(items[i].revision, rows[items[i].date].revision, number))
    && (forall i, j :: 0 <= i < |items| && 0 <= j < |items| && items[i].date == items[j].date
          ==> Comparable(items[i].revision, items[j].revision, number))
  }

  lemma {:induction false} RowsComeFrom(rows: map<string, Row>, items: seq<Item>, date: string, number: string -> Option<real>)
    requires date in NewRows(rows, items, number)
    ensures var row := NewRows(rows, items, number)[date];
      (date in rows && row == rows[date]) || exists i :: 0 <= i < |items| && items[i].date == date && row == RowOf(items[i])
    decreases |items|
  {
    if items != [] {
      var n := |items| - 1;
      if !(items[n].date == date && Judge(NewRows(rows, items[..n], number), items[n], number).Applied?) {
        RowsComeFrom(rows, items[..n], date, number);
        if i :| 0 <= i < n && items[..n][i].date == date && NewRows(rows, items, number)[date] == RowOf(items[..n][i]) {
          assert items[i] == items[..n][i];
        }
      }
    }
  }

  /** The item does not beat the row of its date by a newer revision of other content. */
  predicate SettledAt(rows: map<string, Row>, it: Item, number: string -> Option<real>) {
    it.date in rows && ((it.sha == rows[it.date].sha && it.deleted == rows[it.date].deleted)
                        || !Newer(it.revision, rows[it.date].revision, number))
  }

  ghost predicate Settled(rows: map<string, Row>, items: seq<Item>, n: nat, number: string -> Option<real>)
    requires n <= |items|
  {
    forall k :: 0 <= k < n ==> SettledAt(rows, items[k], number)
  }

  function OneRow(rows: map<string, Row>, it: Item, number: string -> Option<real>): map<string, Row> {
    if Judge(rows, it, number).Applied? then rows[it.date := RowOf(it)] else rows
  }

  lemma SettlesOne(rows: map<string, Row>, it: Item, number: string -> Option<real>)
    ensures SettledAt(OneRow(rows, it, number), it, number)
  {
  }

  lemma StaysSettled(rows: map<string, Row>, earlier: Item, it: Item, number: string -> Option<real>)
    requires SettledAt(rows, earlier, number)
    requires earlier.date == it.date ==> SameContent(earlier, it) || !Newer(earlier.revision, it.revision, number)
    ensures SettledAt(OneRow(rows, it, number), earlier, number)
  {
  }

  lemma {:induction false} BatchSettles(rows: map<string, Row>, items: seq<Item>, number: string -> Option<real>, n: nat)
    requires n <= |items| && NoOvertakes(items, number)
    ensures Settled(NewRows(rows, items[..n], number), items, n, number)
    decreases n
  {
    if n > 0 {
      var m := n - 1;
      BatchSettles(rows, items, number, m);
      var before, it := NewRows(rows, items[..m], number), items[m];
      assert items[..n] == items[..m] + [it];
      NewRowsSnoc(rows, items[..m], it, number);
      SettlesOne(before, it, number);
      forall k | 0 <= k < m ensures SettledAt(OneRow(before, it, number), items[k], number) {
        assert SettledAt(before, items[k], number) && !Overtakes(items, k, m, number);
        StaysSettled(before, items[k], it, number);
      }
    }
  }

  /** A batch can be sent again without effect when, for each date and revisions of one
      kind, no item is overtaken: later items with other content are not older. */
  lemma ReplayWithoutOvertakes(rows: map<string, Row>, items: seq<Item>, number: string -> Option<real>)
    requires OneKind(rows, items, number) && NoOvertakes(items, number)
    ensures var after := NewRows(rows, items, number);
      NewRows(after, items, number) == after && Contents(after, items, number) == map[]
  {
    var after := NewRows(rows, items, number);
    BatchSettles(rows, items, number, |items|);
    assert items[..|items|] == items;
    forall k | 0 <= k < |items| ensures !Judge(after, items[k], number).Applied? {
      assert SettledAt(after, items[k], number);
      RowsComeFrom(rows, items, items[k].date, number);
    }
    NothingApplies(after, items, number);
  }

  /** A lone overtaken pair does not replay: over a row with the content of its first
      item and an old revision, that item is skipped without its revision being taken
      over, and on replay it beats the item that followed. */
  lemma OvertakenPairChanges(x: Item, y: Item, low: string, number: string -> Option<real>)
    requires Overtakes([x, y], 0, 1, number) && Newer(y.revision, low, number)
    ensures var rows := map[x.date := Row(x.sha, low, x.deleted)];
      var once := NewRows(rows, [x, y], number);
      && OneKind(rows, [x, y], number)
      && once == map[x.date := RowOf(y)] && NewRows(once, [x, y], number) == map[x.date := RowOf(x)] != once
  {
    var rows := map[x.date := Row(x.sha, low, x.deleted)];
    assert [x, y] == [x] + [y] && [x] == [] + [x];
    NewerTransitive(x.revision, y.revision, low, number);
    NewRowsSnoc(rows, [], x, number);
    NewRowsSnoc(rows, [x], y, number);
    var once := NewRows(rows, [x, y], number);
    assert once == map[x.date := RowOf(y)];
    NewRowsSnoc(once, [], x, number);
    NewRowsSnoc(once, [x], y, number);
    NotBoth(x.revision, y.revision, number);
    assert NewRows(once, [x], number) == map[x.date := RowOf(x)];
    assert [x, y][0] == x && [x, y][1] == y;
  }

  lemma NotBoth(a: string, b: string, number: string -> Option<real>)
    requires Newer(a, b, number)
    ensures !Newer(b, a, number)
  {
    if Newer(b, a, number) {
      NewerTransitive(a, b, a, number);
      if number(a).None? { LessIrreflexive(a); }
    }
  }

  ghost predicate Replays(rows: map<string, Row>, items: seq<Item>, number: string -> Option<real>) {
    var once := NewRows(rows, items, number); NewRows(once, items, number) == once
  }

  /** For two items of one date that is exact: they replay over every stored row of
      their kind if and only if the first does not overtake the second.  `low` is some
      revision older than the second item's. */
  lemma ReplayPairIff(x: Item, y: Item, low: string, number: string -> Option<real>)
    requires x.date == y.date && Comparable(x.revision, y.revision, number) && Newer(y.revision, low, number)
    ensures (forall rows :: OneKind(rows, [x, y], number) ==> Replays(rows, [x, y], number)) <==> !Overtakes([x, y], 0, 1, number)
  {
    if Overtakes([x, y], 0, 1, number) {
      OvertakenPairChanges(x, y, low, number);
      assert !Replays(map[x.date := Row(x.sha, low, x.deleted)], [x, y], number);
    } else {
      forall rows | OneKind(rows, [x, y], number) ensures Replays(rows, [x, y], number) {
        ReplayWithoutOvertakes(rows, [x, y], number);
      }
    }
  }

  lemma {:induction false} ContentAfter(rows: map<string, Row>, items: seq<Item>, i: nat, number: string -> Option<real>)
    requires DistinctDates(items) && i < |items|
    ensures var it := items[i]; var written := Contents(rows, items, number);
      if Judge(rows, it, number).Applied? && !it.deleted then it.date in written && written[it.date] == it.content
      else it.date !in written
    decreases |items|
  {
    var n := |items| - 1;
    if i < n {
      ContentAfter(rows, items[..n], i, number);
      assert items[n].date != items[i].date;
    } else {
      OtherDates(rows, items[..n], items[n].date, number);
    }
  }

  /** An item that puts new content over a live row. */
  predicate Overwrites(rows: map<string, Row>, it: Item, number: string -> Option<real>) {
    Judge(rows, it, number).Applied? && !it.deleted && it.date in rows && !rows[it.date].deleted
  }

  /** A batch that stops before its manifest is saved leaves manifest and files in
      agreement exactly when none of the items it got through overwrote a live row. */
  lemma UnsavedStaysConsistent(rows: map<string, Row>, files: map<string, string>, items: seq<Item>, hash: string -> string, number: string -> Option<real>)
    requires Consistent(rows, files, hash) && Valid(items, hash) && DistinctDates(items)
    ensures Consistent(rows, files + Contents(rows, items, number), hash)
       <==> forall k :: 0 <= k < |items| ==> !Overwrites(rows, items[k], number)
  {
    var after := files + Contents(rows, items, number);
    if k :| 0 <= k < |items| && Overwrites(rows, items[k], number) {
      ContentAfter(rows, items, k, number);
      assert hash(after[items[k].date]) != rows[items[k].date].sha;
    } else {
      forall date | date in rows && !rows[date].deleted ensures date in after && hash(after[date]) == rows[date].sha {
        if k :| 0 <= k < |items| && items[k].date == date {
          ContentAfter(rows, items, k, number);
        } else {
          OtherDates(rows, items, date, number);
        }
      }
    }
  }

  // ---- Revisions over a run ----------------------------------------------

  lemma NewerTransitive(a: string, b: string, c: string, number: string -> Option<real>)
    requires Newer(a, b, number) && Newer(b, c, number)
    ensures Newer(a, c, number)
  {
    if number(a).None? { LessTransitive(c, b, a); }
  }

  /** The date is not forgotten, and its row is the same or of a newer revision. */
  ghost predicate RisenAt(before: map<string, Row>, after: map<string, Row>, date: string, number: string -> Option<real>) {
    date in before ==>
      date in after && (after[date] == before[date] || Newer(after[date].revision, before[date].revision, number))
  }

  ghost predicate KindAt(rows: map<string, Row>, date: string, numeric: bool, number: string -> Option<real>) {
    date in rows ==> number(rows[date].revision).Some? == numeric
  }

  ghost predicate ItemsOfKind(items: seq<Item>, date: string, numeric: bool, number: string -> Option<real>) {
    forall i :: 0 <= i < |items| && items[i].date == date ==> number(items[i].revision).Some? == numeric
  }

  lemma RisenTransitive(a: map<string, Row>, b: map<string, Row>, c: map<string, Row>, date: string, number: string -> Option<real>)
    requires RisenAt(a, b, date, number) && RisenAt(b, c, date, number)
    ensures RisenAt(a, c, date, number)
  {
    if date in a && c[date] != b[date] && b[date] != a[date] {
      NewerTransitive(c[date].revision, b[date].revision, a[date].revision, number);
    }
  }

  lemma {:induction false} BatchRises(rows: map<string, Row>, items: seq<Item>, date: string, numeric: bool, number: string -> Option<real>)
    requires KindAt(rows, date, numeric, number) && ItemsOfKind(items, date, numeric, number)
    ensures RisenAt(rows, NewRows(rows, items, number), date, number) && KindAt(NewRows(rows, items, number), date, numeric, number)
    decreases |items|
  {
    if items != [] {
      var n := |items| - 1;
      BatchRises(rows, items[..n], date, numeric, number);
      var front := NewRows(rows, items[..n], number);
      assert RisenAt(front, NewRows(rows, items, number), date, number);
      RisenTransitive(rows, front, NewRows(rows, items, number), date, number);
    }
  }

  /** One call of apply_batch with what happens to its writes. */
  datatype Call = Call(generation: string, items: seq<Item>, writes: seq<bool>, manifestWrite: WriteOutcome, statusWrite: bool)

  function Apply(d: Disk, c: Call, number: string -> Option<real>): Disk {
    Batch(d, c.generation, c.items, c.writes, c.manifestWrite, c.statusWrite, number).0
  }

  function Run(d: Disk, calls: seq<Call>, number: string -> Option<real>): Disk
    decreases |calls|
  {
    if calls == [] then d else Apply(Run(d, calls[..|calls| - 1], number), calls[|calls| - 1], number)
  }

  lemma ApplyRows(d: Disk, c: Call, number: string -> Option<real>)
    requires !c.manifestWrite.LostOld?
    ensures RowsOf(Apply(d, c, number)) == RowsOf(d) || RowsOf(Apply(d, c, number)) == NewRows(RowsOf(d), c.items, number)
  {
    TakeAllIs(RowsOf(d), d.files, c.items, c.writes, number);
    assert c.items[..|c.items|] == c.items;
  }

  /** Over any run of batches, failed ones included, in which the manifest file is not
      lost and a date's revisions are of one kind -- whatever other dates use -- the
      date is not forgotten and its stored revision only rises, strictly whenever its
      row changes. */
  lemma {:induction false} RunRises(d: Disk, calls: seq<Call>, date: string, numeric: bool, number: string -> Option<real>)
    requires KindAt(RowsOf(d), date, numeric, number)
    requires forall k :: 0 <= k < |calls| ==> ItemsOfKind(calls[k].items, date, numeric, number) && !calls[k].manifestWrite.LostOld?
    ensures RisenAt(RowsOf(d), RowsOf(Run(d, calls, number)), date, number) && KindAt(RowsOf(Run(d, calls, number)), date, numeric, number)
    decreases |calls|
  {
    if calls != [] {
      var n := |calls| - 1;
      RunRises(d, calls[..n], date, numeric, number);
      var e := Run(d, calls[..n], number);
      ApplyRows(e, calls[n], number);
      BatchRises(RowsOf(e), calls[n].items, date, numeric, number);
      RisenTransitive(RowsOf(d), RowsOf(e), RowsOf(Run(d, calls, number)), date, number);
    }
  }

  /** An update that applies to an existing row raises its revision if and only if the
      two are comparable. */
  lemma AppliedRisesIff(rows: map<string, Row>, it: Item, number: string -> Option<real>)
    requires it.date in rows && Judge(rows, it, number).Applied?
    ensures var after := NewRows(rows, [it], number);
      Newer(after[it.date].revision, rows[it.date].revision, number) <==> Comparable(it.revision, rows[it.date].revision, number)
  {
    assert [it][..0] == [];
    assert NewRows(rows, [it][..0], number) == rows;
  }

  /** The row of the date ends older than it was. */
  ghost predicate GoesBack(rows: map<string, Row>, items: seq<Item>, date: string, number: string -> Option<real>) {
    var after := NewRows(rows, items, number);
    date in rows && date in after && Newer(rows[date].revision, after[date].revision, number)
  }

  ghost predicate Drawn(items: seq<Item>, date: string, a: string, b: string) {
    forall i :: 0 <= i < |items| ==> items[i].date == date && (items[i].revision == a || items[i].revision == b)
  }

  /** The update that goes back by way of another kind: each of the two has other content. */
  function Detour(date: string, row: Row, other: string, low: string, sha: string): seq<Item> {
    [Item(date, sha, other, !row.deleted, ""), Item(date, sha, low, row.deleted, "")]
  }

  lemma DetourGoesBack(rows: map<string, Row>, date: string, other: string, low: string, sha: string, number: string -> Option<real>)
    requires date in rows && Newer(rows[date].revision, low, number) && !Comparable(other, rows[date].revision, number)
    ensures GoesBack(rows, Detour(date, rows[date], other, low, sha), date, number)
  {
    var row := rows[date];
    var items := Detour(date, row, other, low, sha);
    NewRowsSnoc(rows, [], items[0], number);
    NewRowsSnoc(rows, [items[0]], items[1], number);
    assert [] + [items[0]] == [items[0]] && [items[0]] + [items[1]] == items;
  }

  lemma RisenIsNotBack(rows: map<string, Row>, items: seq<Item>, date: string, number: string -> Option<real>)
    requires RisenAt(rows, NewRows(rows, items, number), date, number)
    ensures !GoesBack(rows, items, date, number)
  {
    if date in rows {
      var before, after := rows[date].revision, NewRows(rows, items, number)[date].revision;
      if Newer(before, after, number) && Newer(after, before, number) { NewerTransitive(before, after, before, number); }
      LessIrreflexive(before);
    }
  }

  /** With updates drawn from an older revision and one more, a row can be taken back if
      and only if that other revision is of another kind than the row's. */
  lemma GoesBackIff(rows: map<string, Row>, date: string, other: string, low: string, hash: string -> string, number: string -> Option<real>)
    requires date in rows && Newer(rows[date].revision, low, number)
    ensures (exists items :: Drawn(items, date, other, low) && Valid(items, hash) && GoesBack(rows, items, date, number))
       <==> !Comparable(other, rows[date].revision, number)
  {
    var row := rows[date];
    if Comparable(other, row.revision, number) {
      forall items | Drawn(items, date, other, low) ensures !GoesBack(rows, items, date, number) {
        BatchRises(rows, items, date, number(row.revision).Some?, number);
        RisenIsNotBack(rows, items, date, number);
      }
    } else {
      var items := Detour(date, row, other, low, hash(""));
      DetourGoesBack(rows, date, other, low, hash(""), number);
      assert Drawn(items, date, other, low) && Valid(items, hash);
    }
  }

  /** Revisions of different kinds are not comparable and always apply, so that a run
      mixing them can end below where it began. */
  lemma MixedKindsGoBack(number: string -> Option<real>)
    requires number("5") == Some(5.0) && number("3") == Some(3.0) && number("v") == None
    ensures var rows := map["2024-01-01" := Row("x", "5", true)];
      var items := [Item("2024-01-01", "y", "v", true, ""), Item("2024-01-01", "z", "3", true, "")];
      NewRows(rows, items, number) == map["2024-01-01" := Row("z", "3", true)]
  {
    var date := "2024-01-01";
    var rows := map[date := Row("x", "5", true)];
    var a, b := Item(date, "y", "v", true, ""), Item(date, "z", "3", true, "");
    assert [a, b][..1] == [a] && [a][..0] == [];
    assert NewRows(rows, [a], number) == rows[date := RowOf(a)];
    assert NewRows(rows, [a, b], number) == rows[date := RowOf(a)][date := RowOf(b)];
  }
}
