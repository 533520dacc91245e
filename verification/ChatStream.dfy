/** The streaming exit of the language model client: a think buffer at the head of
    the stream, then the leak scan. */
module ChatStream {
  import opened LeakFilter
  import opened Sequences
  import opened SafeWrite

  /** The two tag expressions, left abstract.  `openEnd` is the end of an opening tag
      at the very start of a text, `closeEnd` the end of the first closing tag in it. */
  datatype TagMatchers = TagMatchers(openEnd: string -> Option<nat>, closeEnd: string -> Option<nat>)

  ghost predicate MatchWithin(m: string -> Option<nat>) {
    forall b :: m(b).Some? ==> m(b).value <= |b|
  }

  type Tags = t: TagMatchers | MatchWithin(t.openEnd) && MatchWithin(t.closeEnd)
    witness TagMatchers(b => None, b => None)

  /** `THINK_OPEN_RE.sub("", buf, count=1)`. */
  function StripOpen(tags: Tags, buf: string): string {
    var e := tags.openEnd(buf);
    if e.Some? then buf[e.value..] else buf
  }

  datatype Think = Fresh | Buffering(buf: string) | Passing

  /** One piece through the think buffer; the second part is what is left to scan.
      `expired` says whether the buffering deadline has passed. */
  function ThinkStep(tags: Tags, th: Think, piece: string, expired: bool): (Think, string) {
    match th
    case Passing => (Passing, piece)
    case Fresh => if tags.openEnd(piece).Some? then (Buffering(piece), "") else (Passing, piece)
    case Buffering(old_) =>
      var buf := old_ + piece;
      var e := tags.closeEnd(buf);
      if e.Some? then (Passing, buf[e.value..])
      else if expired then (Passing, StripOpen(tags, buf))
      else (Buffering(buf), "")
  }

  datatype Piece = Piece(text: string, expired: bool)

  /** The state after some pieces and the texts handed to the leak scan. */
  function Feed(tags: Tags, pieces: seq<Piece>): (Think, seq<string>)
    decreases |pieces|
  {
    if pieces == [] then (Fresh, [])
    else
      var (th, texts) := Feed(tags, pieces[..|pieces| - 1]);
      var (th', text) := ThinkStep(tags, th, pieces[|pieces| - 1].text, pieces[|pieces| - 1].expired);
      (th', if text == "" then texts else texts + [text])
  }

  /** With the fail-open rule at the end of the stream. */
  function Texts(tags: Tags, pieces: seq<Piece>): seq<string> {
    var (th, texts) := Feed(tags, pieces);
    if th.Buffering? && StripOpen(tags, th.buf) != "" then texts + [StripOpen(tags, th.buf)] else texts
  }

  function Whole(pieces: seq<Piece>): string
    decreases |pieces|
  {
    if pieces == [] then "" else Whole(pieces[..|pieces| - 1]) + pieces[|pieces| - 1].text
  }

  /** `chat_stream`, from the arriving pieces to the yielded texts.  No empty text is
      yielded, and together they are what the leak filter shows of the fed texts. */
  method Stream(tags: Tags, pieces: seq<Piece>) returns (yielded: seq<string>)
    ensures Concat(yielded) == Shown(Texts(tags, pieces))
    ensures forall y :: y in yielded ==> y != ""
  {
    yielded := [];
    var scan := Scan("", false);
    var th := Fresh;
    ghost var texts: seq<string> := [];
    assert pieces[..0] == [];
    for i := 0 to |pieces|
      invariant (th, texts) == Feed(tags, pieces[..i])
      invariant ScanAll(texts) == (scan, Concat(yielded))
      invariant forall y :: y in yielded ==> y != ""
    {
      assert pieces[..i + 1][..i] == pieces[..i];
      var text: string;
      th, text := ThinkStep(tags, th, pieces[i].text, pieces[i].expired).0, ThinkStep(tags, th, pieces[i].text, pieces[i].expired).1;
      if text != "" {
        texts := texts + [text];
        scan, yielded := Emit(scan, text, yielded, texts);
      }
    }
    assert pieces[..|pieces|] == pieces;
    if th.Buffering? && StripOpen(tags, th.buf) != "" {
      texts := texts + [StripOpen(tags, th.buf)];
      scan, yielded := Emit(scan, StripOpen(tags, th.buf), yielded, texts);
    }
    var tail := LeakFlush(scan);
    if tail != "" {
      ConcatSnoc(yielded, tail);
      yielded := yielded + [tail];
    }
  }

  /** One call of the leak scan inside the generator. */
  method Emit(scan: Scan, text: string, yielded: seq<string>, ghost texts: seq<string>) returns (scan': Scan, yielded': seq<string>)
    requires texts != [] && texts[|texts| - 1] == text && ScanAll(texts[..|texts| - 1]) == (scan, Concat(yielded))
    requires forall y :: y in yielded ==> y != ""
    ensures ScanAll(texts) == (scan', Concat(yielded'))
    ensures forall y :: y in yielded' ==> y != ""
  {
    var safe: string;
    scan', safe := LeakScan(scan, text).0, LeakScan(scan, text).1;
    yielded' := yielded;
    assert Concat(yielded) + "" == Concat(yielded);
    if safe != "" {
      ConcatSnoc(yielded, safe);
      yielded' := yielded + [safe];
    }
  }

  // ---- what is fed to the scan -------------------------------------------

  /** Feeding one more piece, seen through the joined texts. */
  lemma FeedStep(tags: Tags, pieces: seq<Piece>, front: seq<Piece>, last: Piece)
    requires pieces == front + [last]
    ensures var (th, text) := ThinkStep(tags, Feed(tags, front).0, last.text, last.expired);
      && Feed(tags, pieces).0 == th
      && Feed(tags, pieces).1 == (if text == "" then Feed(tags, front).1 else Feed(tags, front).1 + [text])
      && Concat(Feed(tags, pieces).1) == Concat(Feed(tags, front).1) + text
  {
    assert pieces[..|pieces| - 1] == front;
    var text := ThinkStep(tags, Feed(tags, front).0, last.text, last.expired).1;
    ConcatSnoc(Feed(tags, front).1, text);
    assert Concat(Feed(tags, front).1) + "" == Concat(Feed(tags, front).1);
  }

  lemma WholeStep(pieces: seq<Piece>, front: seq<Piece>, last: Piece)
    requires pieces == front + [last]
    ensures Whole(pieces) == Whole(front) + last.text
  {
    assert pieces[..|pieces| - 1] == front;
  }

  lemma DropAppend(a: string, b: string, e: nat)
    requires e <= |a|
    ensures (a + b)[e..] == a[e..] + b
    ensures "" + a == a
  {
  }

  /** Once passing, the rest of the stream is fed as it is. */
  lemma {:induction false} FeedPassing(tags: Tags, head: seq<Piece>, rest: seq<Piece>)
    requires Feed(tags, head).0.Passing?
    ensures Feed(tags, head + rest).0.Passing?
    ensures Concat(Feed(tags, head + rest).1) == Concat(Feed(tags, head).1) + Whole(rest)
    decreases |rest|
  {
    if rest == [] {
      assert head + rest == head;
    } else {
      var front, last := rest[..|rest| - 1], rest[|rest| - 1];
      assert rest == front + [last];
      assert head + rest == (head + front) + [last];
      FeedPassing(tags, head, front);
      FeedStep(tags, head + rest, head + front, last);
      WholeStep(rest, front, last);
      Assoc(Concat(Feed(tags, head).1), Whole(front), last.text);
    }
  }

  lemma WholeAppendOne(a: seq<Piece>, front: seq<Piece>, last: Piece)
    requires Whole(a + front) == Whole(a) + Whole(front)
    ensures Whole(a + (front + [last])) == Whole(a) + Whole(front + [last])
  {
    assert a + (front + [last]) == (a + front) + [last];
    WholeStep(a + (front + [last]), a + front, last);
    WholeStep(front + [last], front, last);
    Assoc(Whole(a), Whole(front), last.text);
  }

  lemma {:induction false} WholeAppend(a: seq<Piece>, b: seq<Piece>)
    ensures Whole(a + b) == Whole(a) + Whole(b)
    decreases |b|
  {
    if b == [] {
      assert a + b == a;
    } else {
      assert b == b[..|b| - 1] + [b[|b| - 1]];
      WholeAppend(a, b[..|b| - 1]);
      WholeAppendOne(a, b[..|b| - 1], b[|b| - 1]);
    }
  }

  /** A stream that does not start with an opening tag is fed unchanged. */
  lemma PlainStreamIsFed(tags: Tags, pieces: seq<Piece>)
    requires pieces != [] && tags.openEnd(pieces[0].text).None?
    ensures Concat(Texts(tags, pieces)) == Whole(pieces)
  {
    var first, rest := [pieces[0]], pieces[1..];
    assert pieces == first + rest && first == [] + first;
    FeedStep(tags, first, [], pieces[0]);
    WholeStep(first, [], pieces[0]);
    FeedPassing(tags, first, rest);
    WholeAppend(first, rest);
  }

  /** No closing tag has arrived and the deadline has not passed.  The first piece
      alone is never searched. */
  ghost predicate Waiting(tags: Tags, seen: seq<Piece>)
    decreases |seen|
  {
    |seen| > 1 ==>
      && tags.closeEnd(Whole(seen)).None? && !seen[|seen| - 1].expired
      && Waiting(tags, seen[..|seen| - 1])
  }

  /** Meanwhile everything stays in the buffer. */
  lemma {:induction false} FeedBuffers(tags: Tags, seen: seq<Piece>)
    requires seen != [] && tags.openEnd(seen[0].text).Some? && Waiting(tags, seen)
    ensures Feed(tags, seen).0 == Buffering(Whole(seen)) && Feed(tags, seen).1 == []
    decreases |seen|
  {
    var front, last := seen[..|seen| - 1], seen[|seen| - 1];
    FeedStep(tags, seen, front, last);
    WholeStep(seen, front, last);
    if |seen| == 1 {
      assert front == [];
      DropAppend(last.text, "", 0);
    } else {
      FeedBuffers(tags, front);
    }
  }

  lemma FeedCloses(tags: Tags, before: seq<Piece>, closing: Piece)
    requires before != [] && tags.openEnd(before[0].text).Some? && Waiting(tags, before)
    requires tags.closeEnd(Whole(before + [closing])).Some?
    ensures var seen := before + [closing];
      Feed(tags, seen).0.Passing? && Concat(Feed(tags, seen).1) == Whole(seen)[tags.closeEnd(Whole(seen)).value..]
  {
    var seen := before + [closing];
    FeedBuffers(tags, before);
    FeedStep(tags, seen, before, closing);
    WholeStep(seen, before, closing);
    DropAppend(Whole(seen)[tags.closeEnd(Whole(seen)).value..], "", 0);
  }

  /** Thinking is hidden: when the buffer of an opened stream first closes with a piece
      after the first one, exactly what follows the closing tag is fed. */
  lemma ThinkingIsHidden(tags: Tags, before: seq<Piece>, closing: Piece, rest: seq<Piece>)
    requires before != [] && tags.openEnd(before[0].text).Some? && Waiting(tags, before)
    requires tags.closeEnd(Whole(before + [closing])).Some?
    ensures var pieces := before + [closing] + rest; var e := tags.closeEnd(Whole(before + [closing])).value;
      e <= |Whole(pieces)| && Concat(Texts(tags, pieces)) == Whole(pieces)[e..]
  {
    var seen := before + [closing];
    FeedCloses(tags, before, closing);
    FeedPassing(tags, seen, rest);
    WholeAppend(seen, rest);
    DropAppend(Whole(seen), Whole(rest), tags.closeEnd(Whole(seen)).value);
  }

  /** The other half: if an opened stream ends without having closed or expired, all
      of it but the opening tag is fed, and so shown up to the leak filter. */
  lemma UnclosedThinkingIsFed(tags: Tags, pieces: seq<Piece>)
    requires pieces != [] && tags.openEnd(pieces[0].text).Some? && Waiting(tags, pieces)
    ensures Concat(Texts(tags, pieces)) == StripOpen(tags, Whole(pieces))
  {
    FeedBuffers(tags, pieces);
    ConcatSnoc([], StripOpen(tags, Whole(pieces)));
    DropAppend(StripOpen(tags, Whole(pieces)), "", 0);
  }

  /** The third way out: when the deadline has passed before the buffer closed, all of
      the stream but the opening tag is fed. */
  lemma ExpiredThinkingIsFed(tags: Tags, before: seq<Piece>, late: Piece, rest: seq<Piece>)
    requires before != [] && tags.openEnd(before[0].text).Some? && Waiting(tags, before)
    requires tags.closeEnd(Whole(before + [late])).None? && late.expired
    ensures var seen := before + [late];
      Concat(Texts(tags, seen + rest)) == StripOpen(tags, Whole(seen)) + Whole(rest)
  {
    var seen := before + [late];
    FeedBuffers(tags, before);
    FeedStep(tags, seen, before, late);
    WholeStep(seen, before, late);
    DropAppend(StripOpen(tags, Whole(seen)), "", 0);
    FeedPassing(tags, seen, rest);
  }

  /** In particular a complete think block that arrives as a single piece is not
      recognised as closed: the thinking itself is fed. */
  lemma SinglePieceEscapes(tags: Tags, piece: Piece)
    requires tags.openEnd(piece.text).Some?
    ensures Concat(Texts(tags, [piece])) == StripOpen(tags, piece.text)
  {
    UnclosedThinkingIsFed(tags, [piece]);
    WholeStep([piece], [], piece);
    DropAppend(piece.text, "", 0);
  }

  // ---- when thinking is hidden -------------------------------------------

  /** Facts of the two expressions: an opening tag at the start stays where it is when
      text follows, and a closing tag ends after it. */
  ghost predicate Sensible(tags: TagMatchers) {
    && (forall b, x :: tags.openEnd(b).Some? ==> tags.openEnd(b + x) == tags.openEnd(b))
    && (forall b :: tags.openEnd(b).Some? && tags.closeEnd(b).Some? ==> tags.closeEnd(b).value > tags.openEnd(b).value)
  }

  /** The piece at n, not the first, closes the buffer while it is still waiting. */
  ghost predicate ClosesAt(tags: Tags, pieces: seq<Piece>, n: nat) {
    1 <= n < |pieces| && Waiting(tags, pieces[..n]) && tags.closeEnd(Whole(pieces[..n + 1])).Some?
  }

  ghost predicate ExpiresAt(tags: Tags, pieces: seq<Piece>, n: nat) {
    1 <= n < |pieces| && Waiting(tags, pieces[..n]) && tags.closeEnd(Whole(pieces[..n + 1])).None? && pieces[n].expired
  }

  /** A second piece arrives and the buffer closes before the deadline. */
  ghost predicate ClosesInTime(tags: Tags, pieces: seq<Piece>) {
    exists n: nat :: ClosesAt(tags, pieces, n)
  }

  lemma {:induction false} Ends(tags: Tags, pieces: seq<Piece>)
    ensures Waiting(tags, pieces) || ClosesInTime(tags, pieces) || exists n: nat :: ExpiresAt(tags, pieces, n)
    decreases |pieces|
  {
    if |pieces| > 1 {
      var m := |pieces| - 1;
      var front := pieces[..m];
      Ends(tags, front);
      assert pieces[..m + 1] == pieces;
      if Waiting(tags, front) {
        assert ClosesAt(tags, pieces, m) || ExpiresAt(tags, pieces, m) || Waiting(tags, pieces);
      } else if n: nat :| ClosesAt(tags, front, n) {
        assert front[..n] == pieces[..n] && front[..n + 1] == pieces[..n + 1];
        assert ClosesAt(tags, pieces, n);
      } else {
        var n: nat :| ExpiresAt(tags, front, n);
        assert front[..n] == pieces[..n] && front[..n + 1] == pieces[..n + 1];
        assert ExpiresAt(tags, pieces, n);
      }
    }
  }

  lemma {:induction false} WaitingPrefix(tags: Tags, seen: seq<Piece>, n: nat)
    requires Waiting(tags, seen) && n <= |seen|
    ensures Waiting(tags, seen[..n])
    ensures n > 1 ==> tags.closeEnd(Whole(seen[..n])).None? && !seen[n - 1].expired
    decreases |seen|
  {
    if n == |seen| {
      assert seen[..n] == seen;
    } else if |seen| > 1 {
      assert seen[..|seen| - 1][..n] == seen[..n];
      WaitingPrefix(tags, seen[..|seen| - 1], n);
    }
  }

  /** A stream that expires or ends while waiting does not close in time. */
  lemma NotInTime(tags: Tags, pieces: seq<Piece>, n: nat)
    requires ExpiresAt(tags, pieces, n) || (n == |pieces| && Waiting(tags, pieces))
    ensures !ClosesInTime(tags, pieces)
  {
    forall m: nat ensures !ClosesAt(tags, pieces, m) {
      if ClosesAt(tags, pieces, m) {
        assert pieces[..|pieces|] == pieces;
        if m < n {
          assert pieces[..n][..m + 1] == pieces[..m + 1];
          WaitingPrefix(tags, pieces[..n], m + 1);
        } else if m > n {
          assert pieces[..m][..n + 1] == pieces[..n + 1] && pieces[..m][n] == pieces[n];
          WaitingPrefix(tags, pieces[..m], n + 1);
        }
      }
    }
  }

  lemma OpenStays(tags: Tags, pieces: seq<Piece>, n: nat)
    requires Sensible(tags) && 1 <= n <= |pieces| && tags.openEnd(pieces[0].text).Some?
    ensures tags.openEnd(Whole(pieces[..n])) == tags.openEnd(pieces[0].text)
  {
    var first, more := pieces[..1], pieces[1..n];
    assert pieces[..n] == first + more && first == [pieces[0]];
    WholeAppend(first, more);
    WholeStep(first, [], pieces[0]);
    DropAppend(pieces[0].text, "", 0);
  }

  lemma Cut(pieces: seq<Piece>, n: nat)
    requires n < |pieces|
    ensures pieces[..n + 1] == pieces[..n] + [pieces[n]] && pieces == pieces[..n + 1] + pieces[n + 1..]
  {
  }

  lemma ClosedIs(tags: Tags, pieces: seq<Piece>, n: nat)
    requires Sensible(tags) && pieces != [] && tags.openEnd(pieces[0].text).Some? && ClosesAt(tags, pieces, n)
    ensures var c := tags.closeEnd(Whole(pieces[..n + 1])).value;
      tags.openEnd(pieces[0].text).value < c <= |Whole(pieces)| && Concat(Texts(tags, pieces)) == Whole(pieces)[c..]
  {
    OpenStays(tags, pieces, n + 1);
    Cut(pieces, n);
    ThinkingIsHidden(tags, pieces[..n], pieces[n], pieces[n + 1..]);
  }

  lemma UnclosedIs(tags: Tags, pieces: seq<Piece>)
    requires Sensible(tags) && pieces != [] && tags.openEnd(pieces[0].text).Some? && Waiting(tags, pieces)
    ensures var o := tags.openEnd(pieces[0].text).value;
      o <= |Whole(pieces)| && Concat(Texts(tags, pieces)) == Whole(pieces)[o..]
  {
    OpenStays(tags, pieces, |pieces|);
    assert pieces[..|pieces|] == pieces;
    UnclosedThinkingIsFed(tags, pieces);
  }

  /** What an opened stream feeds: everything after the closing tag if it closes in
      time, else everything after the opening tag. */
  lemma OpenedStreamIs(tags: Tags, pieces: seq<Piece>)
    requires Sensible(tags) && pieces != [] && tags.openEnd(pieces[0].text).Some?
    ensures tags.openEnd(pieces[0].text).value <= |Whole(pieces)|
    ensures !ClosesInTime(tags, pieces) ==> Concat(Texts(tags, pieces)) == Whole(pieces)[tags.openEnd(pieces[0].text).value..]
    ensures forall n: nat :: ClosesAt(tags, pieces, n) ==>
      var c := tags.closeEnd(Whole(pieces[..n + 1])).value;
      tags.openEnd(pieces[0].text).value < c <= |Whole(pieces)| && Concat(Texts(tags, pieces)) == Whole(pieces)[c..]
  {
    forall n: nat | ClosesAt(tags, pieces, n)
      ensures var c := tags.closeEnd(Whole(pieces[..n + 1])).value;
        tags.openEnd(pieces[0].text).value < c <= |Whole(pieces)| && Concat(Texts(tags, pieces)) == Whole(pieces)[c..]
    {
      ClosedIs(tags, pieces, n);
    }
    Ends(tags, pieces);
    if Waiting(tags, pieces) {
      UnclosedIs(tags, pieces);
    } else if n: nat :| ExpiresAt(tags, pieces, n) {
      ExpiredIs(tags, pieces, n);
    }
  }

  lemma ExpiredIs(tags: Tags, pieces: seq<Piece>, n: nat)
    requires Sensible(tags) && pieces != [] && tags.openEnd(pieces[0].text).Some? && ExpiresAt(tags, pieces, n)
    ensures var o := tags.openEnd(pieces[0].text).value;
      o <= |Whole(pieces)| && Concat(Texts(tags, pieces)) == Whole(pieces)[o..]
  {
    Cut(pieces, n);
    ExpiredThinkingIsFed(tags, pieces[..n], pieces[n], pieces[n + 1..]);
    OpenStays(tags, pieces, n + 1);
    FedAfter(tags, pieces[..n + 1], pieces[n + 1..]);
  }

  lemma FedAfter(tags: Tags, seen: seq<Piece>, rest: seq<Piece>)
    requires tags.openEnd(Whole(seen)).Some?
    ensures var o := tags.openEnd(Whole(seen)).value;
      o <= |Whole(seen + rest)| && StripOpen(tags, Whole(seen)) + Whole(rest) == Whole(seen + rest)[o..]
  {
    WholeAppend(seen, rest);
    DropAppend(Whole(seen), Whole(rest), tags.openEnd(Whole(seen)).value);
  }

  /** Thinking in an opened stream is hidden -- less is fed than all but the opening
      tag -- if and only if a second piece arrives and the buffer closes before the
      deadline. */
  lemma HiddenIff(tags: Tags, pieces: seq<Piece>)
    requires Sensible(tags) && pieces != [] && tags.openEnd(pieces[0].text).Some?
    ensures |Concat(Texts(tags, pieces))| < |Whole(pieces)| - tags.openEnd(pieces[0].text).value <==> ClosesInTime(tags, pieces)
  {
    OpenedStreamIs(tags, pieces);
    if ClosesInTime(tags, pieces) {
      var n: nat :| ClosesAt(tags, pieces, n);
      ClosedIs(tags, pieces, n);
    }
  }

  // ---- the stream as a whole ---------------------------------------------

  /** What a client sees of a plain stream: a prefix of the model's text, all of it
      when it holds fewer than two bars, and nothing from the first of two bars at
      most 64 characters apart. */
  lemma PlainStreamIsFiltered(tags: Tags, pieces: seq<Piece>)
    requires pieces != [] && tags.openEnd(pieces[0].text).None?
    ensures var shown := Shown(Texts(tags, pieces)); var text := Whole(pieces);
      && shown <= text
      && (!LooksLeaked(text) ==> shown == text)
      && (forall i, j :: Bars(text, i, j) && j - i <= WINDOW ==> |shown| <= i)
  {
    PlainStreamIsFed(tags, pieces);
    FilteredFacts(Texts(tags, pieces));
  }

  lemma FilteredFacts(texts: seq<string>)
    ensures Shown(texts) <= Concat(texts)
    ensures !LooksLeaked(Concat(texts)) ==> Shown(texts) == Concat(texts)
    ensures forall i, j :: Bars(Concat(texts), i, j) && j - i <= WINDOW ==> |Shown(texts)| <= i
  {
    OutputIsPrefix(texts);
    if !LooksLeaked(Concat(texts)) { CleanTextPasses(texts); }
    forall i, j | Bars(Concat(texts), i, j) && j - i <= WINDOW ensures |Shown(texts)| <= i {
      ClosePairStops(texts, i, j);
    }
  }

  /** The same behind a closed think block. */
  lemma ThinkingStreamIsFiltered(tags: Tags, before: seq<Piece>, closing: Piece, rest: seq<Piece>)
    requires before != [] && tags.openEnd(before[0].text).Some? && Waiting(tags, before)
    requires tags.closeEnd(Whole(before + [closing])).Some?
    ensures var pieces := before + [closing] + rest; var e := tags.closeEnd(Whole(before + [closing])).value;
      var shown := Shown(Texts(tags, pieces));
      && e <= |Whole(pieces)| && shown <= Whole(pieces)[e..]
      && (!LooksLeaked(Whole(pieces)[e..]) ==> shown == Whole(pieces)[e..])
      && (forall i, j :: Bars(Whole(pieces)[e..], i, j) && j - i <= WINDOW ==> |shown| <= i)
  {
    ThinkingIsHidden(tags, before, closing, rest);
    FilteredFacts(Texts(tags, before + [closing] + rest));
  }

  /** And of an opened stream that does not close in time, thinking included. */
  lemma UnhiddenStreamIsFiltered(tags: Tags, pieces: seq<Piece>)
    requires Sensible(tags) && pieces != [] && tags.openEnd(pieces[0].text).Some? && !ClosesInTime(tags, pieces)
    ensures var o := tags.openEnd(pieces[0].text).value; var shown := Shown(Texts(tags, pieces));
      && o <= |Whole(pieces)| && shown <= Whole(pieces)[o..]
      && (!LooksLeaked(Whole(pieces)[o..]) ==> shown == Whole(pieces)[o..])
      && (forall i, j :: Bars(Whole(pieces)[o..], i, j) && j - i <= WINDOW ==> |shown| <= i)
  {
    OpenedStreamIs(tags, pieces);
    FilteredFacts(Texts(tags, pieces));
  }
}
