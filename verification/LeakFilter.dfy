/** The rolling scan that keeps a model's internal tool-call tokens out of a text
    stream: an online filter with a hold-back window of 64 characters. */
module LeakFilter {
  import opened Sequences

  const BAR: char := '｜'
  const MIN_COUNT: nat := 2
  const WINDOW: nat := 64

  function Count(text: string): nat
    decreases |text|
  {
    if text == [] then 0 else Count(text[..|text| - 1]) + (if text[|text| - 1] == BAR then 1 else 0)
  }

  predicate LooksLeaked(text: string) {
    Count(text) >= MIN_COUNT
  }

  /** `text.find(BAR)` where there is one, else the length. */
  function Find(text: string): (i: nat)
    ensures i <= |text| && (i < |text| ==> text[i] == BAR)
    ensures forall j :: 0 <= j < i ==> text[j] != BAR
    decreases |text|
  {
    if text == [] || text[0] == BAR then 0
    else
      var i := Find(text[1..]);
      assert forall j :: 1 <= j < i + 1 ==> text[j] == text[1..][j - 1];
      i + 1
  }

  datatype Scan = Scan(buf: string, leaked: bool)

  /** `_leak_scan`: the new state and what may be shown now. */
  function LeakScan(s: Scan, text: string): (Scan, string) {
    if s.leaked then (s, "")
    else
      var buf := s.buf + text;
      if LooksLeaked(buf) then (Scan("", true), buf[..Find(buf)])
      else if |buf| > WINDOW then (Scan(buf[|buf| - WINDOW..], false), buf[..|buf| - WINDOW])
      else (Scan(buf, false), "")
  }

  /** `_leak_flush` at the end of the stream. */
  function LeakFlush(s: Scan): string {
    if s.leaked then "" else s.buf
  }

  /** State and output after scanning the texts one by one. */
  function ScanAll(texts: seq<string>): (Scan, string)
    decreases |texts|
  {
    if texts == [] then (Scan("", false), "")
    else
      var (s, out) := ScanAll(texts[..|texts| - 1]);
      var (s', shown) := LeakScan(s, texts[|texts| - 1]);
      (s', out + shown)
  }

  /** Everything the stream shows. */
  function Shown(texts: seq<string>): string {
    ScanAll(texts).1 + LeakFlush(ScanAll(texts).0)
  }

  // ---- counting bars -----------------------------------------------------

  lemma {:induction false} CountZero(text: string)
    ensures Count(text) == 0 <==> forall i :: 0 <= i < |text| ==> text[i] != BAR
    decreases |text|
  {
    if text != [] { CountZero(text[..|text| - 1]); }
  }

  /** Two bars, by position. */
  ghost predicate Bars(text: string, i: int, j: int) {
    0 <= i < j < |text| && text[i] == BAR && text[j] == BAR
  }

  lemma {:induction false} LeakedMeansTwoBars(text: string)
    ensures LooksLeaked(text) <==> exists i, j :: Bars(text, i, j)
    decreases |text|
  {
    if text != [] {
      var n := |text| - 1;
      LeakedMeansTwoBars(text[..n]);
      CountZero(text[..n]);
      if i, j :| Bars(text[..n], i, j) { assert Bars(text, i, j); }
      if text[n] == BAR && Count(text[..n]) > 0 {
        var i :| 0 <= i < n && text[..n][i] == BAR;
        assert Bars(text, i, n);
      }
      if i, j :| Bars(text, i, j) {
        if j < n { assert Bars(text[..n], i, j); } else { assert text[..n][i] == BAR; }
      }
    }
  }

  // ---- the invariant of the scan -----------------------------------------

  /** Before a leak: what was shown plus the buffer is the text so far, and unless
      nothing was shown yet the buffer is a full window.  After one: the output ends
      right before a bar. */
  ghost predicate ScanOk(whole: string, s: Scan, out: string) {
    if s.leaked then
      |out| < |whole| && out == whole[..|out|] && whole[|out|] == BAR
    else
      out + s.buf == whole && !LooksLeaked(s.buf) && |s.buf| <= WINDOW && (out != "" ==> |s.buf| == WINDOW)
  }

  lemma CutBuffer(whole: string, out: string, held: string, text: string, n: nat)
    requires out + held == whole && n <= |held + text|
    ensures out + (held + text) == whole + text
    ensures out + (held + text)[..n] == (whole + text)[..|out| + n]
    ensures (out + (held + text)[..n]) + (held + text)[n..] == whole + text
    ensures n < |held + text| ==> |out| + n < |whole + text| && (whole + text)[|out| + n] == (held + text)[n]
  {
    assert out + (held + text) == whole + text;
  }

  lemma LeakOk(whole: string, out: string, held: string, text: string)
    requires out + held == whole && LooksLeaked(held + text)
    ensures ScanOk(whole + text, Scan("", true), out + (held + text)[..Find(held + text)])
  {
    CountZero(held + text);
    CutBuffer(whole, out, held, text, Find(held + text));
  }

  lemma SlideOk(whole: string, out: string, held: string, text: string)
    requires out + held == whole && !LooksLeaked(held + text) && |held + text| > WINDOW
    ensures var n := |held + text| - WINDOW;
      ScanOk(whole + text, Scan((held + text)[n..], false), out + (held + text)[..n])
  {
    var n := |held + text| - WINDOW;
    CutBuffer(whole, out, held, text, n);
    SuffixClean(held + text, n);
  }

  lemma HoldOk(whole: string, s: Scan, out: string, text: string)
    requires ScanOk(whole, s, out) && !s.leaked && !LooksLeaked(s.buf + text) && |s.buf + text| <= WINDOW
    ensures ScanOk(whole + text, Scan(s.buf + text, false), out + "")
  {
    assert out + "" == out && out + (s.buf + text) == (out + s.buf) + text;
  }

  lemma LeakedOk(whole: string, s: Scan, out: string, text: string)
    requires ScanOk(whole, s, out) && s.leaked
    ensures ScanOk(whole + text, s, out + "")
  {
    assert out + "" == out && (whole + text)[..|out|] == whole[..|out|];
  }

  lemma StepOk(whole: string, s: Scan, out: string, text: string)
    requires ScanOk(whole, s, out)
    ensures ScanOk(whole + text, LeakScan(s, text).0, out + LeakScan(s, text).1)
  {
    if s.leaked {
      LeakedOk(whole, s, out, text);
    } else if LooksLeaked(s.buf + text) {
      LeakOk(whole, out, s.buf, text);
    } else if |s.buf + text| > WINDOW {
      SlideOk(whole, out, s.buf, text);
    } else {
      HoldOk(whole, s, out, text);
    }
  }

  lemma {:induction false} ScanKeepsOk(texts: seq<string>)
    ensures ScanOk(Concat(texts), ScanAll(texts).0, ScanAll(texts).1)
    decreases |texts|
  {
    if texts != [] {
      var front := texts[..|texts| - 1];
      ScanKeepsOk(front);
      StepOk(Concat(front), ScanAll(front).0, ScanAll(front).1, texts[|texts| - 1]);
    } else {
      assert Count("") == 0;
    }
  }

  lemma SuffixClean(buf: string, n: nat)
    requires n <= |buf|
    ensures LooksLeaked(buf[n..]) ==> LooksLeaked(buf)
  {
    LeakedMeansTwoBars(buf);
    LeakedMeansTwoBars(buf[n..]);
    if i, j :| Bars(buf[n..], i, j) { assert Bars(buf, n + i, n + j); }
  }

  lemma PrefixClean(a: string, b: string)
    ensures LooksLeaked(a) ==> LooksLeaked(a + b)
  {
    LeakedMeansTwoBars(a + b);
    LeakedMeansTwoBars(a);
    if i, j :| Bars(a, i, j) { assert Bars(a + b, i, j); }
  }

  /** The scan of the last text, seen from the whole. */
  lemma LeakStep(texts: seq<string>)
    requires texts != [] && !ScanAll(texts[..|texts| - 1]).0.leaked
    ensures var (s, out) := ScanAll(texts[..|texts| - 1]); var buf := s.buf + texts[|texts| - 1];
      && out + buf == Concat(texts)
      && (ScanAll(texts).0.leaked <==> LooksLeaked(buf))
      && (ScanAll(texts).0.leaked ==> ScanAll(texts).1 == out + buf[..Find(buf)])
  {
    var front, last := texts[..|texts| - 1], texts[|texts| - 1];
    ScanKeepsOk(front);
    Assoc(ScanAll(front).1, ScanAll(front).0.buf, last);
  }

  // ---- main results ------------------------------------------------------

  /** For every chunking the output is a prefix of the scanned text; it is all of it,
      or it stops right before a bar. */
  lemma OutputIsPrefix(texts: seq<string>)
    ensures var shown := Shown(texts); var whole := Concat(texts);
      shown <= whole && (shown == whole || whole[|shown|] == BAR)
      && (shown == whole <==> !ScanAll(texts).0.leaked)
  {
    ScanKeepsOk(texts);
  }

  /** For every chunking: when two bars lie at most 64 characters apart, nothing at
      or after the first of them is shown. */
  lemma {:induction false} ClosePairStops(texts: seq<string>, i: int, j: int)
    requires Bars(Concat(texts), i, j) && j - i <= WINDOW
    ensures ScanAll(texts).0.leaked && |Shown(texts)| <= i
    decreases |texts|
  {
    var front, last := texts[..|texts| - 1], texts[|texts| - 1];
    var before := Concat(front);
    ScanKeepsOk(front);
    var (s, out) := ScanAll(front);
    if j < |before| {
      assert Bars(before, i, j);
      ClosePairStops(front, i, j);
    } else if s.leaked {
      if i < |out| {
        assert before[i] == Concat(texts)[i] && Bars(before, i, |out|);
        ClosePairStops(front, i, |out|);
      }
    } else {
      var buf := s.buf + last;
      LeakStep(texts);
      assert |out| <= i;
      assert Bars(buf, i - |out|, j - |out|);
      LeakedMeansTwoBars(buf);
      assert Find(buf) <= i - |out|;
    }
  }

  /** Text with fewer than two bars passes unchanged, however it is cut. */
  lemma CleanTextPasses(texts: seq<string>)
    requires !LooksLeaked(Concat(texts))
    ensures Shown(texts) == Concat(texts)
  {
    CleanNeverLeaks(texts);
    OutputIsPrefix(texts);
  }

  lemma {:induction false} CleanNeverLeaks(texts: seq<string>)
    requires !LooksLeaked(Concat(texts))
    ensures !ScanAll(texts).0.leaked
    decreases |texts|
  {
    if texts != [] {
      var front, last := texts[..|texts| - 1], texts[|texts| - 1];
      PrefixClean(Concat(front), last);
      CleanNeverLeaks(front);
      LeakStep(texts);
      var (s, out) := ScanAll(front);
      var buf := s.buf + last;
      assert Concat(texts)[|out|..] == buf;
      SuffixClean(Concat(texts), |out|);
    }
  }

  /** If the first two bars lie at most 64 apart the output is exactly the text before
      the first one: on such text the filter does not depend on the chunking. */
  lemma StopsExactlyAtFirstBar(texts: seq<string>, i: int, j: int)
    requires Bars(Concat(texts), i, j) && j - i <= WINDOW
    requires forall k :: 0 <= k < i ==> Concat(texts)[k] != BAR
    ensures Shown(texts) == Concat(texts)[..i]
  {
    ClosePairStops(texts, i, j);
    OutputIsPrefix(texts);
  }

  lemma PairInBuffer(whole: string, out: string, buf: string)
    requires whole == out + buf && LooksLeaked(buf)
    ensures exists i, j :: Bars(whole, i, j) && j - i < |buf|
  {
    LeakedMeansTwoBars(buf);
    var i, j :| Bars(buf, i, j);
    assert Bars(whole, |out| + i, |out| + j);
  }

  lemma PairStays(before: string, text: string, d: int)
    requires exists i, j :: Bars(before, i, j) && j - i <= d
    ensures exists i, j :: Bars(before + text, i, j) && j - i <= d
  {
    var i, j :| Bars(before, i, j) && j - i <= d;
    assert Bars(before + text, i, j);
  }

  /** The window is what makes the difference: with texts of at most n characters, a
      leak is only ever seen where two bars lie at most 63 + n apart. */
  lemma {:induction false} LeakNeedsPair(texts: seq<string>, n: nat)
    requires ScanAll(texts).0.leaked && forall t :: t in texts ==> |t| <= n
    ensures exists i, j :: Bars(Concat(texts), i, j) && j - i <= WINDOW - 1 + n
    decreases |texts|
  {
    var front, last := texts[..|texts| - 1], texts[|texts| - 1];
    assert last in texts && Concat(texts) == Concat(front) + last;
    if ScanAll(front).0.leaked {
      LeakNeedsPair(front, n);
      PairStays(Concat(front), last, WINDOW - 1 + n);
    } else {
      LeakStep(texts);
      ScanKeepsOk(front);
      PairInBuffer(Concat(texts), ScanAll(front).1, ScanAll(front).0.buf + last);
    }
  }

  /** Fed character by character, the filter stops exactly when two bars lie at most
      64 characters apart. */
  lemma OneByOneExact(texts: seq<string>)
    requires forall t :: t in texts ==> |t| <= 1
    ensures Shown(texts) != Concat(texts) <==> exists i, j :: Bars(Concat(texts), i, j) && j - i <= WINDOW
  {
    OutputIsPrefix(texts);
    if ScanAll(texts).0.leaked { LeakNeedsPair(texts, 1); }
    if i, j :| Bars(Concat(texts), i, j) && j - i <= WINDOW { ClosePairStops(texts, i, j); }
  }
}
