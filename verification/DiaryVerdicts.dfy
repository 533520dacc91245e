/** What a batch reports for each item and does to its row, in terms of revisions as
    numbers or texts. */
module DiaryVerdicts {
  import opened SafeWrite
  import opened Ordering
  import opened DiaryMirror

  /** Numbers are compared as numbers, texts as texts, and a number with a text not at all. */
  predicate IsNewer(a: string, b: string, number: string -> Option<real>) {
    || (number(a).Some? && number(b).Some? && number(a).value > number(b).value)
    || (number(a).None? && number(b).None? && Less(b, a))
  }

  predicate SameRevision(a: string, b: string, number: string -> Option<real>) {
    || (number(a).Some? && number(b).Some? && number(a).value == number(b).value)
    || (number(a).None? && number(b).None? && a == b)
  }

  predicate OtherKind(a: string, b: string, number: string -> Option<real>) {
    number(a).Some? != number(b).Some?
  }

  /** The answer for one item over the rows as they then are, and the rows after it. */
  ghost predicate Means(rows: map<string, Row>, after: map<string, Row>, it: Item, v: Verdict, number: string -> Option<real>) {
    && (it.date !in rows ==> v == Applied)
    && (it.date in rows ==>
          var row := rows[it.date];
          var same := row.sha == it.sha && row.deleted == it.deleted;
          && (same ==> v == Idempotent)
          && (!same && (IsNewer(it.revision, row.revision, number) || OtherKind(it.revision, row.revision, number)) ==> v == Applied)
          && (!same && IsNewer(row.revision, it.revision, number) ==> v == Stale)
          && (!same && SameRevision(row.revision, it.revision, number) ==> v == Conflict))
    && after == if v == Applied then rows[it.date := Row(it.sha, it.revision, it.deleted)] else rows
  }

  /** Every two revisions stand in exactly one of these relations. */
  lemma OneRelation(a: string, b: string, number: string -> Option<real>)
    ensures IsNewer(a, b, number) || IsNewer(b, a, number) || SameRevision(a, b, number) || OtherKind(a, b, number)
    ensures !(IsNewer(a, b, number) && IsNewer(b, a, number))
    ensures SameRevision(a, b, number) ==> !IsNewer(a, b, number) && !IsNewer(b, a, number)
  {
    if number(a).None? && number(b).None? {
      if a != b { LessTotal(a, b); }
      LessIrreflexive(a);
      if Less(a, b) && Less(b, a) { LessTransitive(a, b, a); }
    }
  }

  lemma JudgeMeans(rows: map<string, Row>, it: Item, number: string -> Option<real>)
    ensures Means(rows, OneRow(rows, it, number), it, Judge(rows, it, number), number)
  {
    if it.date in rows { OneRelation(it.revision, rows[it.date].revision, number); }
  }

  /** One answer for each item in turn. */
  ghost predicate Reports(rows: map<string, Row>, items: seq<Item>, verdicts: seq<Verdict>, number: string -> Option<real>) {
    && |verdicts| == |items|
    && forall i: nat :: i < |items| ==> ReportsAt(rows, items, i, verdicts[i], number)
  }

  ghost predicate ReportsAt(rows: map<string, Row>, items: seq<Item>, i: nat, v: Verdict, number: string -> Option<real>)
    requires i < |items|
  {
    Means(NewRows(rows, items[..i], number), NewRows(rows, items[..i + 1], number), items[i], v, number)
  }

  lemma ReportsSnoc(rows: map<string, Row>, front: seq<Item>, it: Item, verdicts: seq<Verdict>, number: string -> Option<real>)
    requires Reports(rows, front, verdicts, number)
    ensures Reports(rows, front + [it], verdicts + [Judge(NewRows(rows, front, number), it, number)], number)
  {
    var items, n := front + [it], |front|;
    var all := verdicts + [Judge(NewRows(rows, front, number), it, number)];
    forall i: nat | i < n + 1 ensures ReportsAt(rows, items, i, all[i], number) {
      if i < n {
        assert ReportsAt(rows, front, i, verdicts[i], number);
        assert items[..i] == front[..i] && items[..i + 1] == front[..i + 1];
      } else {
        assert items[..n] == front && items[..n + 1] == items;
        NewRowsSnoc(rows, front, it, number);
        JudgeMeans(NewRows(rows, front, number), it, number);
      }
    }
  }

  lemma {:induction false} TakeAllReports(rows: map<string, Row>, files: map<string, string>, items: seq<Item>, number: string -> Option<real>)
    ensures var w := TakeAll(rows, files, items, [], number);
      !w.failed && w.rows == NewRows(rows, items, number) && Reports(rows, items, w.verdicts, number)
    decreases |items|
  {
    if items != [] {
      var front, it := items[..|items| - 1], items[|items| - 1];
      assert items == front + [it];
      TakeAllReports(rows, files, front, number);
      NewRowsSnoc(rows, front, it, number);
      ReportsSnoc(rows, front, it, TakeAll(rows, files, front, [], number).verdicts, number);
    }
  }

  /** A batch whose writes succeed reports for each item, over the rows as the items before
      it left them: applied for a new date, a newer revision or one of another kind,
      idempotent for the same content, stale for an older revision, a conflict for the same
      one -- and only an applied item changes its row. */
  lemma BatchReports(d: Disk, generation: string, items: seq<Item>, number: string -> Option<real>)
    ensures var (after, results) := Batch(d, generation, items, [], Written, true, number);
      && results.Some? && Reports(RowsOf(d), items, results.value, number)
      && after.manifest == Some(Manifest(Some(generation), NewRows(RowsOf(d), items, number)))
  {
    TakeAllReports(RowsOf(d), d.files, items, number);
  }

  // ---- failing writes ----------------------------------------------------

  /** Item n applies with content to write, and that write fails. */
  ghost predicate FailsAt(rows: map<string, Row>, items: seq<Item>, writes: seq<bool>, n: nat, number: string -> Option<real>)
    requires n < |items|
  {
    n < |writes| && !writes[n] && !items[n].deleted && Judge(NewRows(rows, items[..n], number), items[n], number).Applied?
  }

  ghost predicate FailsFirstAt(rows: map<string, Row>, items: seq<Item>, writes: seq<bool>, n: nat, number: string -> Option<real>) {
    n < |items| && FailsAt(rows, items, writes, n, number) && forall m: nat :: m < n ==> !FailsAt(rows, items, writes, m, number)
  }

  ghost predicate NeverFails(rows: map<string, Row>, items: seq<Item>, writes: seq<bool>, number: string -> Option<real>) {
    forall n: nat :: n < |items| ==> !FailsAt(rows, items, writes, n, number)
  }

  lemma FailsInFront(rows: map<string, Row>, items: seq<Item>, k: nat, writes: seq<bool>, n: nat, number: string -> Option<real>)
    requires n < k <= |items|
    ensures FailsAt(rows, items[..k], writes, n, number) <==> FailsAt(rows, items, writes, n, number)
  {
    assert items[..k][..n] == items[..n];
  }

  lemma {:induction false} LoopStops(rows: map<string, Row>, files: map<string, string>, items: seq<Item>, writes: seq<bool>, number: string -> Option<real>)
    ensures var w := TakeAll(rows, files, items, writes, number);
      if w.failed then FailsFirstAt(rows, items, writes, |w.verdicts|, number) else NeverFails(rows, items, writes, number)
    decreases |items|
  {
    if items != [] {
      var n := |items| - 1;
      var w := TakeAll(rows, files, items[..n], writes, number);
      LoopStops(rows, files, items[..n], writes, number);
      TakeAllIs(rows, files, items[..n], writes, number);
      assert items[..n][..n] == items[..n];
      forall m: nat | m < n ensures FailsAt(rows, items[..n], writes, m, number) <==> FailsAt(rows, items, writes, m, number) {
        FailsInFront(rows, items, n, writes, m, number);
      }
    }
  }

  /** What a batch leaves: if a file cannot be written, an error, the old manifest and the
      files of the items before; else all files, and the manifest as its write went. */
  lemma BatchLeaves(d: Disk, generation: string, items: seq<Item>, writes: seq<bool>, manifestWrite: WriteOutcome, statusWrite: bool,
                    number: string -> Option<real>, n: nat)
    ensures var (after, results) := Batch(d, generation, items, writes, manifestWrite, statusWrite, number); var rows := RowsOf(d);
      && (FailsFirstAt(rows, items, writes, n, number) ==>
            results.None? && after.manifest == d.manifest && after.files == d.files + Contents(rows, items[..n], number))
      && (NeverFails(rows, items, writes, number) ==>
            && after.files == d.files + Contents(rows, items, number)
            && (results.Some? <==> manifestWrite == Written && statusWrite)
            && (manifestWrite == Written ==> after.manifest == Some(Manifest(Some(generation), NewRows(rows, items, number))))
            && (manifestWrite == KeptOld ==> after.manifest == d.manifest)
            && (manifestWrite == LostOld ==> after.manifest == None))
  {
    var rows := RowsOf(d);
    LoopStops(rows, d.files, items, writes, number);
    TakeAllIs(rows, d.files, items, writes, number);
    assert items[..|items|] == items;
    var w := TakeAll(rows, d.files, items, writes, number);
    if w.failed && FailsFirstAt(rows, items, writes, n, number) { OneFirst(rows, items, writes, n, |w.verdicts|, number); }
  }

  lemma OneFirst(rows: map<string, Row>, items: seq<Item>, writes: seq<bool>, n: nat, m: nat, number: string -> Option<real>)
    requires FailsFirstAt(rows, items, writes, n, number) && FailsFirstAt(rows, items, writes, m, number)
    ensures n == m
  {
  }

  /** Over any run in which a date's revisions are numbers and the manifest is not lost, the
      stored number never falls, and grows whenever the row changes. */
  lemma NumbersRise(d: Disk, calls: seq<Call>, date: string, number: string -> Option<real>)
    requires date in RowsOf(d) && KindAt(RowsOf(d), date, true, number)
    requires forall k :: 0 <= k < |calls| ==> ItemsOfKind(calls[k].items, date, true, number) && !calls[k].manifestWrite.LostOld?
    ensures var after := RowsOf(Run(d, calls, number)); var before := RowsOf(d)[date];
      && date in after && number(before.revision).Some? && number(after[date].revision).Some?
      && (after[date] == before || number(after[date].revision).value > number(before.revision).value)
  {
    RunRises(d, calls, date, true, number);
  }

  /** The same for texts, in their order. */
  lemma TextsRise(d: Disk, calls: seq<Call>, date: string, number: string -> Option<real>)
    requires date in RowsOf(d) && KindAt(RowsOf(d), date, false, number)
    requires forall k :: 0 <= k < |calls| ==> ItemsOfKind(calls[k].items, date, false, number) && !calls[k].manifestWrite.LostOld?
    ensures var after := RowsOf(Run(d, calls, number)); var before := RowsOf(d)[date];
      date in after && (after[date] == before || Less(before.revision, after[date].revision))
  {
    RunRises(d, calls, date, false, number);
  }
}
