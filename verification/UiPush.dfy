/** Server-side typewriter replay: a text cut into blocks and paced. */
module UiPush {
  import opened Sequences

  predicate Ends(c: char) {
    c == '\n' || c == '。' || c == '！' || c == '？' || c == '…'
  }

  lemma ConcatAppendOne(a: seq<string>, front: seq<string>, last: string)
    requires Concat(a + front) == Concat(a) + Concat(front)
    ensures Concat(a + (front + [last])) == Concat(a) + Concat(front + [last])
  {
    assert a + (front + [last]) == (a + front) + [last];
    ConcatSnoc(a + front, last);
    ConcatSnoc(front, last);
    Assoc(Concat(a), Concat(front), last);
  }

  lemma {:induction false} ConcatAppend(a: seq<string>, b: seq<string>)
    ensures Concat(a + b) == Concat(a) + Concat(b)
    decreases |b|
  {
    if b == [] {
      assert a + b == a;
    } else {
      assert b == b[..|b| - 1] + [b[|b| - 1]];
      ConcatAppend(a, b[..|b| - 1]);
      ConcatAppendOne(a, b[..|b| - 1], b[|b| - 1]);
    }
  }

  lemma ConcatSlice(parts: seq<string>, i: nat, end: nat)
    requires i <= end <= |parts|
    ensures Concat(parts[..end]) == Concat(parts[..i]) + Concat(parts[i..end])
  {
    ConcatAppend(parts[..i], parts[i..end]);
    assert parts[..i] + parts[i..end] == parts[..end];
  }

  // ---- Blocks ------------------------------------------------------------

  /** No text follows a sentence end inside the piece. */
  predicate WithinSentence(s: string) {
    forall i :: 0 < i < |s| && Ends(s[i - 1]) ==> Ends(s[i])
  }

  predicate GoodBlock(b: string, hi: nat) {
    1 <= |b| <= hi && WithinSentence(b)
  }

  predicate GoodBlocks(blocks: seq<string>, hi: nat) {
    forall i :: 0 <= i < |blocks| ==> GoodBlock(blocks[i], hi)
  }

  lemma PartOfSentence(sentence: string, i: nat, end: nat, hi: nat)
    requires i < end <= |sentence| && end - i <= hi
    ensures WithinSentence(sentence) ==> GoodBlock(sentence[i..end], hi)
  {
    var block := sentence[i..end];
    if WithinSentence(sentence) {
      forall k | 0 < k < |block| && Ends(block[k - 1]) ensures Ends(block[k]) {
        assert block[k - 1] == sentence[i + k - 1] && block[k] == sentence[i + k];
      }
    }
  }

  lemma OneMoreBlock(sentence: string, blocks: seq<string>, i: nat, end: nat, hi: nat)
    requires i < end <= |sentence| && end - i <= hi
    requires Concat(blocks) == sentence[..i] && (WithinSentence(sentence) ==> GoodBlocks(blocks, hi))
    ensures Concat(blocks + [sentence[i..end]]) == sentence[..end]
    ensures WithinSentence(sentence) ==> GoodBlocks(blocks + [sentence[i..end]], hi)
  {
    ConcatSnoc(blocks, sentence[i..end]);
    assert sentence[..i] + sentence[i..end] == sentence[..end];
    PartOfSentence(sentence, i, end, hi);
  }

  /** Blocks of random size between lo and hi, the last cut short by the sentence. */
  method SplitSentence(sentence: string, lo: nat, hi: nat) returns (blocks: seq<string>)
    requires 1 <= lo <= hi
    ensures Concat(blocks) == sentence
    ensures WithinSentence(sentence) ==> GoodBlocks(blocks, hi)
    ensures forall i :: 0 <= i < |blocks| - 1 ==> lo <= |blocks[i]|
  {
    blocks := [];
    var i := 0;
    while i < |sentence|
      invariant 0 <= i <= |sentence| && Concat(blocks) == sentence[..i]
      invariant WithinSentence(sentence) ==> GoodBlocks(blocks, hi)
      invariant forall k :: 0 <= k < |blocks| - 1 ==> lo <= |blocks[k]|
      invariant i < |sentence| && blocks != [] ==> lo <= |blocks[|blocks| - 1]|
      decreases |sentence| - i
    {
      var size: nat :| lo <= size <= hi;
      var end := if i + size < |sentence| then i + size else |sentence|;
      var block := sentence[i..end];
      OneMoreBlock(sentence, blocks, i, end, hi);
      blocks := blocks + [block];
      i := end;
    }
    assert sentence[..|sentence|] == sentence;
  }

  /** The next match of "text up to and including a run of ends", or the tail. */
  method NextSentence(text: string, pos: nat) returns (end: nat)
    requires pos < |text|
    ensures pos < end <= |text| && WithinSentence(text[pos..end])
    ensures end < |text| ==> Ends(text[end - 1]) && !Ends(text[end])
  {
    end := pos;
    while end < |text| && !Ends(text[end])
      invariant pos <= end <= |text| && forall i :: pos <= i < end ==> !Ends(text[i])
    {
      end := end + 1;
    }
    ghost var first := end;
    while end < |text| && Ends(text[end])
      invariant pos <= first <= end <= |text| && (first < |text| ==> Ends(text[first]))
      invariant forall i :: pos <= i < first ==> !Ends(text[i])
      invariant forall i :: first <= i < end ==> Ends(text[i])
    {
      end := end + 1;
    }
  }

  function Max(a: int, b: int): int { if a > b then a else b }

  /** The blocks put together are the text, whatever sizes are drawn. */
  method SplitIntoBlocks(text: string, blockMin: int, blockMax: int) returns (blocks: seq<string>)
    ensures Concat(blocks) == text
    ensures GoodBlocks(blocks, Max(Max(1, blockMin), blockMax))
  {
    var lo := Max(1, blockMin);
    var hi := Max(lo, blockMax);
    blocks := [];
    var pos := 0;
    while pos < |text|
      invariant 0 <= pos <= |text| && Concat(blocks) == text[..pos] && GoodBlocks(blocks, hi)
      decreases |text| - pos
    {
      var end := NextSentence(text, pos);
      var more := SplitSentence(text[pos..end], lo, hi);
      ConcatAppend(blocks, more);
      assert text[..pos] + text[pos..end] == text[..end];
      blocks := blocks + more;
      pos := end;
    }
    assert text[..|text|] == text;
  }

  // ---- Pacing ------------------------------------------------------------

  const MIN_SLEEP := 0.01

  function MaxReal(a: real, b: real): real { if a > b then a else b }

  function Ceil(x: real): int {
    if x.Floor as real == x then x.Floor else x.Floor + 1
  }

  datatype Pace = Pace(lo: real, hi: real, group: nat)

  lemma ProductPositive(a: real, b: real)
    requires a >= 0.0 && b >= 0.0
    ensures a * b >= 0.0 && (a > 0.0 && b > 0.0 ==> a * b > 0.0)
  {
  }

  lemma DividedTimes(a: real, b: real)
    requires b > 0.0
    ensures a / b * b == a
  {
  }

  lemma QuotientPositive(a: real, b: real)
    requires a > 0.0 && b > 0.0
    ensures a / b > 0.0
  {
    DividedTimes(a, b);
    if a / b <= 0.0 {
      ProductPositive(-(a / b), b);
    }
  }

  /** n times x, by addition. */
  function Times(n: nat, x: real): real {
    if n == 0 then 0.0 else Times(n - 1, x) + x
  }

  lemma {:induction false} TimesIs(n: nat, x: real)
    ensures Times(n, x) == (n as real) * x
  {
    if n > 0 {
      TimesIs(n - 1, x);
      assert ((n - 1) as real) * x + x == (n as real) * x;
    }
  }

  /** The factor that brings the expected duration down to the budget. */
  function ScaleFor(n: real, lo: real, hi: real, budget: real): (scale: real)
    ensures scale > 0.0
  {
    var expected := n * (lo + hi) / 2.0;
    if budget > 0.0 && expected > budget then QuotientPositive(budget, expected); budget / expected else 1.0
  }

  /** As many blocks for one sleep as make it long enough to be scheduled. */
  function GroupFor(hi: real): (g: nat)
    ensures g >= 1
  {
    if 0.0 < hi < MIN_SLEEP then Max(1, Ceil(MIN_SLEEP / hi)) else 1
  }

  function PaceFor(n: nat, intervalMin: real, intervalMax: real, budget: real): Pace {
    var lo := MaxReal(0.0, intervalMin);
    var hi := MaxReal(lo, intervalMax);
    var scale := ScaleFor(n as real, lo, hi, budget);
    Pace(lo * scale, hi * scale, GroupFor(hi * scale))
  }

  lemma ScaledOrder(lo: real, hi: real, scale: real)
    requires 0.0 <= lo <= hi && scale > 0.0
    ensures 0.0 <= lo * scale <= hi * scale
  {
    ProductPositive(lo, scale);
    ProductPositive(hi - lo, scale);
    assert (hi - lo) * scale == hi * scale - lo * scale;
  }

  lemma PaceOrder(n: nat, intervalMin: real, intervalMax: real, budget: real)
    ensures var p := PaceFor(n, intervalMin, intervalMax, budget); 0.0 <= p.lo <= p.hi
  {
    var lo := MaxReal(0.0, intervalMin);
    var hi := MaxReal(lo, intervalMax);
    ScaledOrder(lo, hi, ScaleFor(n as real, lo, hi, budget));
  }

  lemma TimesScale(nh: real, expected: real, budget: real, scale: real)
    requires nh <= 2.0 * expected && scale > 0.0 && scale * expected == budget
    ensures nh * scale <= 2.0 * budget
  {
    ProductPositive(2.0 * expected - nh, scale);
    assert (2.0 * expected - nh) * scale == 2.0 * (scale * expected) - nh * scale;
  }

  lemma TimesFits(blocks: nat, hi: real, scale: real, bound: real)
    requires ((blocks as real) * hi) * scale <= bound
    ensures Times(blocks, hi * scale) <= bound
  {
    TimesIs(blocks, hi * scale);
    assert (blocks as real) * (hi * scale) == ((blocks as real) * hi) * scale;
  }

  predicate Scales(n: real, lo: real, hi: real, budget: real, scale: real) {
    var expected := n * (lo + hi) / 2.0;
    scale > 0.0 && if budget > 0.0 && expected > budget then scale * expected == budget else scale == 1.0
  }

  lemma ScaleForScales(n: real, lo: real, hi: real, budget: real)
    ensures Scales(n, lo, hi, budget, ScaleFor(n, lo, hi, budget))
  {
    var expected := n * (lo + hi) / 2.0;
    if budget > 0.0 && expected > budget { DividedTimes(budget, expected); }
  }

  /** The blocks' longest intervals fit twice into the budget. */
  lemma ScaledFits(blocks: nat, lo: real, hi: real, budget: real, scale: real)
    requires blocks > 0 && 0.0 <= lo <= hi && budget > 0.0 && Scales(blocks as real, lo, hi, budget, scale)
    ensures Times(blocks, hi * scale) <= 2.0 * budget
  {
    var n := blocks as real;
    var expected := n * (lo + hi) / 2.0;
    var nh := n * hi;
    ProductPositive(n, lo);
    assert n * (lo + hi) == n * lo + nh;
    if expected > budget {
      TimesScale(nh, expected, budget, scale);
    } else {
      assert nh * scale == nh;
    }
    TimesFits(blocks, hi, scale, 2.0 * budget);
  }

  /** Rounding the last group up costs less than one practical sleep; a grouped sleep
      can reach that length. */
  lemma GroupFits(hi: real)
    requires 0.0 < hi < MIN_SLEEP
    ensures (GroupFor(hi) as real - 1.0) * hi < MIN_SLEEP <= (GroupFor(hi) as real) * hi
  {
    var q, g := MIN_SLEEP / hi, GroupFor(hi) as real;
    DividedTimes(MIN_SLEEP, hi);
    QuotientPositive(MIN_SLEEP, hi);
    assert q <= g < q + 1.0;
    ProductPositive(q + 1.0 - g, hi);
    ProductPositive(g - q, hi);
    assert (q + 1.0 - g) * hi == q * hi - (g - 1.0) * hi;
    assert (g - q) * hi == g * hi - q * hi;
  }

  lemma PaceFits(n: nat, intervalMin: real, intervalMax: real, budget: real)
    requires n > 0 && budget > 0.0
    ensures var p := PaceFor(n, intervalMin, intervalMax, budget);
      && Times(n + p.group - 1, p.hi) < 2.0 * budget + MIN_SLEEP
      && (p.hi > 0.0 ==> MIN_SLEEP <= Times(p.group, p.hi))
  {
    var lo := MaxReal(0.0, intervalMin);
    var hi := MaxReal(lo, intervalMax);
    var scale := ScaleFor(n as real, lo, hi, budget);
    ScaleForScales(n as real, lo, hi, budget);
    ScaledFits(n, lo, hi, budget, scale);
    assert PaceFor(n, intervalMin, intervalMax, budget).hi == hi * scale;
    PaceOrder(n, intervalMin, intervalMax, budget);
    LastGroupFits(n, PaceFor(n, intervalMin, intervalMax, budget).hi, 2.0 * budget);
  }

  lemma GroupOf(p: Pace, hi: real)
    requires p.hi == hi && p.group == GroupFor(hi)
    ensures IsGroup(p.hi, p.group)
  {
    GroupExact(hi);
  }

  /** The pace exactly: the intervals times one factor, which is 1 if the expected duration
      is within the budget and else brings it down to the budget; blocks are grouped only
      where an interval is too short to be scheduled, and no more of them than that needs. */
  lemma PaceExact(n: nat, a: real, b: real, budget: real) returns (scale: real)
    requires 0.0 <= a <= b
    ensures var p := PaceFor(n, a, b, budget);
      Scales(n as real, a, b, budget, scale) && p.lo == a * scale && p.hi == b * scale && IsGroup(p.hi, p.group)
  {
    scale := ScaleFor(n as real, a, b, budget);
    ScaleForScales(n as real, a, b, budget);
    GroupOf(PaceFor(n, a, b, budget), b * scale);
  }

  /** Negative intervals count as 0, and the longer one is at least the shorter. */
  lemma PaceClamps(n: nat, intervalMin: real, intervalMax: real, budget: real)
    ensures var a := if intervalMin > 0.0 then intervalMin else 0.0; var b := if intervalMax > a then intervalMax else a;
      PaceFor(n, intervalMin, intervalMax, budget) == PaceFor(n, a, b, budget)
  {
  }

  predicate IsGroup(hi: real, g: nat) {
    if 0.0 < hi < 0.01 then (g as real - 1.0) * hi < 0.01 <= (g as real) * hi else g == 1
  }

  lemma GroupExact(hi: real)
    ensures IsGroup(hi, GroupFor(hi))
  {
    if 0.0 < hi < MIN_SLEEP { GroupFits(hi); }
  }

  lemma LastGroupFits(n: nat, hi: real, bound: real)
    requires hi >= 0.0 && Times(n, hi) <= bound
    ensures Times(n + GroupFor(hi) - 1, hi) < bound + MIN_SLEEP
    ensures hi > 0.0 ==> MIN_SLEEP <= Times(GroupFor(hi), hi)
  {
    var g := GroupFor(hi);
    TimesIs(n, hi);
    TimesIs(g, hi);
    TimesIs(n + g - 1, hi);
    if 0.0 < hi < MIN_SLEEP { GroupFits(hi); }
    assert ((n + g - 1) as real) == (n as real) + (g as real - 1.0);
    assert ((n as real) + (g as real - 1.0)) * hi == (n as real) * hi + (g as real - 1.0) * hi;
  }

  function Sum(sleeps: seq<real>): real
    decreases |sleeps|
  {
    if sleeps == [] then 0.0 else Sum(sleeps[..|sleeps| - 1]) + sleeps[|sleeps| - 1]
  }

  datatype Settings = Settings(enabled: bool, blockMin: int, blockMax: int, intervalMin: real, intervalMax: real, budget: real)

  lemma SumSnoc(sleeps: seq<real>, sleep: real)
    ensures Sum(sleeps + [sleep]) == Sum(sleeps) + sleep
  {
    assert (sleeps + [sleep])[..|sleeps|] == sleeps;
  }

  function SleepFor(draw: real, group: nat): real { draw * (group as real) }

  lemma NextSleep(blocks: nat, g: nat, hi: real, total: real, draw: real)
    requires 0.0 <= draw <= hi && total <= Times(blocks, hi)
    ensures total <= total + SleepFor(draw, g) <= Times(blocks + g, hi)
  {
    TimesIs(blocks, hi);
    TimesIs(blocks + g, hi);
    ProductPositive(draw, g as real);
    ProductPositive(hi - draw, g as real);
    assert (hi - draw) * (g as real) == hi * (g as real) - draw * (g as real);
    assert ((blocks + g) as real) * hi == (blocks as real) * hi + (g as real) * hi;
  }

  lemma {:induction false} FewerFit(a: nat, b: nat, hi: real)
    requires a <= b && hi >= 0.0
    ensures Times(a, hi) <= Times(b, hi)
  {
    if a < b { FewerFit(a, b - 1, hi); }
  }

  /** Any value of the interval. */
  method Uniform(lo: real, hi: real) returns (draw: real)
    requires lo <= hi
    ensures lo <= draw <= hi
  {
    draw := *;
    if !(lo <= draw <= hi) { draw := lo; }
  }

  /** The blocks joined g at a time, the last group perhaps smaller. */
  function Groups(blocks: seq<string>, g: nat): seq<string>
    requires g >= 1
    decreases |blocks|
  {
    if |blocks| <= g then [Concat(blocks)] else [Concat(blocks[..g])] + Groups(blocks[g..], g)
  }

  lemma LeastSleep(blocks: nat, g: nat, lo: real, total: real, draw: real)
    requires 0.0 <= lo <= draw && total >= Times(blocks, lo)
    ensures total + SleepFor(draw, g) >= Times(blocks + g, lo)
  {
    TimesIs(blocks, lo);
    TimesIs(blocks + g, lo);
    ProductPositive(draw - lo, g as real);
    assert (draw - lo) * (g as real) == draw * (g as real) - lo * (g as real);
    assert ((blocks + g) as real) * lo == (blocks as real) * lo + (g as real) * lo;
  }

  /** One sleep for each of n deltas, or none at all. */
  predicate Paced(n: nat, sleeps: seq<real>, hi: real) {
    |sleeps| == if hi > 0.0 then n else 0
  }

  lemma ConcatOne(s: string)
    ensures Concat([s]) == s
  {
    ConcatSnoc([], s);
    assert [] + [s] == [s];
  }

  lemma ConcatFirst(front: seq<string>, groups: seq<string>, rest: seq<string>)
    requires Concat(groups) == Concat(rest)
    ensures Concat([Concat(front)] + groups) == Concat(front + rest)
  {
    ConcatOne(Concat(front));
    ConcatAppend([Concat(front)], groups);
    ConcatAppend(front, rest);
  }

  lemma {:induction false} GroupsConcat(blocks: seq<string>, g: nat)
    requires g >= 1
    ensures Concat(Groups(blocks, g)) == Concat(blocks) && Groups(blocks, g) != []
    decreases |blocks|
  {
    if |blocks| <= g {
      ConcatOne(Concat(blocks));
    } else {
      GroupsConcat(blocks[g..], g);
      ConcatFirst(blocks[..g], Groups(blocks[g..], g), blocks[g..]);
      assert blocks[..g] + blocks[g..] == blocks;
    }
  }

  /** What is pushed so far and what the blocks from i on still give. */
  ghost predicate Pushing(deltas: seq<string>, blocks: seq<string>, i: nat, g: nat)
    requires g >= 1 && i <= |blocks|
  {
    Groups(blocks, g) == if i < |blocks| then deltas + Groups(blocks[i..], g) else deltas
  }

  /** The group from i to end. */
  function GroupEnd(n: nat, i: nat, g: nat): nat {
    if i + g < n then i + g else n
  }

  lemma PushingOn(deltas: seq<string>, blocks: seq<string>, i: nat, g: nat)
    requires g >= 1 && i < |blocks| && Pushing(deltas, blocks, i, g)
    ensures var end := GroupEnd(|blocks|, i, g); Pushing(deltas + [Concat(blocks[i..end])], blocks, end, g)
  {
    var end := GroupEnd(|blocks|, i, g);
    if end < |blocks| {
      assert blocks[i..][..g] == blocks[i..end] && blocks[i..][g..] == blocks[end..];
      Assoc(deltas, [Concat(blocks[i..end])], Groups(blocks[end..], g));
    } else {
      assert blocks[i..] == blocks[i..end];
    }
  }

  lemma PushingBegins(blocks: seq<string>, g: nat)
    requires g >= 1 && blocks != []
    ensures Pushing([], blocks, 0, g)
  {
    assert blocks[0..] == blocks && [] + Groups(blocks, g) == Groups(blocks, g);
  }

  /** As long as a to b intervals of the pace. */
  predicate Between(total: real, a: nat, b: nat, p: Pace) {
    Times(a, p.lo) <= total <= Times(b, p.hi)
  }

  lemma NextSlept(sleeps: seq<real>, slept: nat, p: Pace, draw: real)
    requires 0.0 <= p.lo <= draw <= p.hi && Between(Sum(sleeps), slept, slept, p)
    ensures Between(Sum(if p.hi > 0.0 then sleeps + [SleepFor(draw, p.group)] else sleeps), slept + p.group, slept + p.group, p)
  {
    NextSleep(slept, p.group, p.hi, Sum(sleeps), draw);
    LeastSleep(slept, p.group, p.lo, Sum(sleeps), draw);
    SumSnoc(sleeps, SleepFor(draw, p.group));
    if p.hi == 0.0 { NoSleep(draw, p.group); }
  }

  lemma NoSleep(draw: real, g: nat)
    requires draw == 0.0
    ensures SleepFor(draw, g) == 0.0
  {
  }

  lemma BetweenWider(total: real, slept: nat, n: nat, p: Pace)
    requires 0.0 <= p.lo <= p.hi && p.group >= 1 && n <= slept <= n + p.group - 1 && Between(total, slept, slept, p)
    ensures Between(total, n, n + p.group - 1, p)
  {
    FewerFit(slept, n + p.group - 1, p.hi);
    FewerFit(n, slept, p.lo);
  }

  /** One interval drawn, as often as the group has blocks; none if intervals are zero. */
  method SleepOnce(sleeps: seq<real>, p: Pace, ghost slept: nat) returns (more: seq<real>)
    requires 0.0 <= p.lo <= p.hi && Between(Sum(sleeps), slept, slept, p)
    ensures Between(Sum(more), slept + p.group, slept + p.group, p)
    ensures |more| == if p.hi > 0.0 then |sleeps| + 1 else |sleeps|
  {
    var draw := Uniform(p.lo, p.hi);
    NextSlept(sleeps, slept, p, draw);
    more := if p.hi > 0.0 then sleeps + [SleepFor(draw, p.group)] else sleeps;
  }

  /** The replay loop: one delta and one sleep for each group of blocks. */
  method PushGroups(blocks: seq<string>, p: Pace) returns (deltas: seq<string>, sleeps: seq<real>)
    requires blocks != [] && 0.0 <= p.lo <= p.hi && p.group >= 1
    ensures deltas == Groups(blocks, p.group) && Paced(|deltas|, sleeps, p.hi)
    ensures Between(Sum(sleeps), |blocks|, |blocks| + p.group - 1, p)
  {
    deltas, sleeps := [], [];
    var i := 0;
    ghost var slept: nat := 0;
    PushingBegins(blocks, p.group);
    while i < |blocks|
      invariant 0 <= i <= |blocks| && Pushing(deltas, blocks, i, p.group) && Paced(|deltas|, sleeps, p.hi)
      invariant i <= slept <= i + p.group - 1 && (i < |blocks| ==> slept == i)
      invariant Between(Sum(sleeps), slept, slept, p)
      decreases |blocks| - i
    {
      var end := GroupEnd(|blocks|, i, p.group);
      var chunk := Join(blocks[i..end]);
      PushingOn(deltas, blocks, i, p.group);
      deltas := deltas + [chunk];
      sleeps := SleepOnce(sleeps, p, slept);
      slept := slept + p.group;
      i := end;
    }
    BetweenWider(Sum(sleeps), slept, |blocks|, p);
  }

  /** The deltas are the groups of these blocks, with one sleep each at this pace. */
  ghost predicate Replayed(deltas: seq<string>, sleeps: seq<real>, blocks: seq<string>, p: Pace) {
    && p.group >= 1 && deltas == Groups(blocks, p.group) && Paced(|deltas|, sleeps, p.hi)
    && Between(Sum(sleeps), |blocks|, |blocks| + p.group - 1, p)
  }

  /** The deltas pushed are the text, or nothing is pushed; and for every draw the
      requested sleeps stay below twice the budget plus one practical sleep. */
  method PseudoStreamPush(text: string, connected: bool, s: Settings)
    returns (deltas: seq<string>, sleeps: seq<real>, ghost blocks: seq<string>)
    ensures deltas == [] || Concat(deltas) == text
    ensures !s.enabled || !connected || text == "" ==> deltas == []
    ensures |text| > Max(Max(1, s.blockMin), s.blockMax) && s.enabled && connected ==> deltas != []
    ensures deltas != [] ==>
      && Concat(blocks) == text && GoodBlocks(blocks, Max(Max(1, s.blockMin), s.blockMax)) && |blocks| > 1
      && Replayed(deltas, sleeps, blocks, PaceFor(|blocks|, s.intervalMin, s.intervalMax, s.budget))
    ensures s.budget > 0.0 ==> Sum(sleeps) < 2.0 * s.budget + MIN_SLEEP
  {
    deltas, sleeps, blocks := [], [], [];
    if text == "" || !s.enabled || !connected { return; }
    var parts := SplitIntoBlocks(text, s.blockMin, s.blockMax);
    if |parts| <= 1 {
      if |parts| == 1 {
        ConcatSnoc([], parts[0]);
        assert parts == [] + [parts[0]];
      }
      return;
    }
    blocks := parts;
    var p := PaceFor(|parts|, s.intervalMin, s.intervalMax, s.budget);
    PaceOrder(|parts|, s.intervalMin, s.intervalMax, s.budget);
    deltas, sleeps := PushGroups(parts, p);
    GroupsConcat(parts, p.group);
    if s.budget > 0.0 {
      PaceFits(|parts|, s.intervalMin, s.intervalMax, s.budget);
    }
  }

  method Join(parts: seq<string>) returns (s: string)
    ensures s == Concat(parts)
  {
    s := "";
    for i := 0 to |parts|
      invariant s == Concat(parts[..i])
    {
      assert parts[..i + 1][..i] == parts[..i];
      s := s + parts[i];
    }
    assert parts[..|parts|] == parts;
  }
}
