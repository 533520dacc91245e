/** What segments look like whatever the reply: trimmed texts, the last tag closed at the
    end, and known tags out of place kept as text. */
module NarrativeSegments {
  import opened SafeWrite
  import opened Sequences
  import opened NarrativeParser
  import opened NarrativeRoundTrip

  // ---- texts are trimmed -------------------------------------------------

  ghost predicate AllTrimmed(a: Alphabet, segments: seq<Segment>) {
    forall i :: 0 <= i < |segments| ==> Trimmed(a, segments[i].text)
  }

  lemma {:induction false} LeftIsTrimmed(a: Alphabet, s: string)
    ensures TrimLeft(a, s) != "" ==> !a.space(TrimLeft(a, s)[0])
    decreases |s|
  {
    if s != [] && a.space(s[0]) { LeftIsTrimmed(a, s[1..]); }
  }

  lemma {:induction false} RightIsTrimmed(a: Alphabet, s: string)
    requires s != "" ==> !a.space(s[0])
    ensures TrimRight(a, s) != "" ==> Trimmed(a, TrimRight(a, s))
    decreases |s|
  {
    if s != [] && a.space(s[|s| - 1]) {
      var front := s[..|s| - 1];
      assert front != [] ==> front[0] == s[0];
      RightIsTrimmed(a, front);
    }
  }

  lemma FlushTrimmed(a: Alphabet, p: Parsing, kind: Kind)
    requires AllTrimmed(a, p.segments)
    ensures AllTrimmed(a, Flush(a, p, kind).segments)
  {
    LeftIsTrimmed(a, p.buf);
    RightIsTrimmed(a, TrimLeft(a, p.buf));
  }

  lemma {:induction false} StepsTrimmed(a: Alphabet, p: Parsing, tokens: seq<Token>)
    requires AllTrimmed(a, p.segments)
    ensures AllTrimmed(a, Steps(a, p, tokens).segments)
    decreases |tokens|
  {
    if tokens != [] {
      var t := tokens[0];
      FlushTrimmed(a, p, Narration);
      if t.Close? { FlushTrimmed(a, p, Tagged(t.tag)); }
      StepsTrimmed(a, Step(a, p, t), tokens[1..]);
    }
  }

  /** No segment is empty or begins or ends with white space. */
  lemma SegmentsAreTrimmed(a: Alphabet, reply: string)
    ensures AllTrimmed(a, Parse(a, reply))
  {
    var tokens := Tokens(a, reply, "");
    StepsTrimmed(a, Parsing([], None, ""), tokens);
    var p := Steps(a, Parsing([], None, ""), tokens);
    FlushTrimmed(a, p, if p.current.Some? then Tagged(p.current.value) else Narration);
  }

  // ---- tags out of place -------------------------------------------------

  /** Inside a known tag another one opens nothing and closes nothing, and outside none is
      closed: what is not the matching close tag is text. */
  lemma OutOfPlaceIsText(a: Alphabet, done: seq<Segment>, buf: string, open: Option<Tag>, tag: Tag, close: bool, rest: string)
    requires a.Valid() && (if close then open != Some(tag) else open.Some?)
    ensures var raw := if close then CloseText(tag) else OpenText(tag);
      Run(a, Parsing(done, open, buf), raw + rest) == Run(a, Parsing(done, open, buf + raw), rest)
  {
    TagRuns(a, Parsing(done, open, buf), tag, close, rest);
  }

  // ---- the end of the reply ----------------------------------------------

  /** As printed, but without the closing tag of the last segment. */
  function PrintUnclosed(segments: seq<Segment>): string {
    if segments == [] then ""
    else
      var s, rest := segments[0], segments[1..];
      match s.kind
      case Narration => s.text + PrintUnclosed(rest)
      case Tagged(tag) => if rest == [] then OpenText(tag) + s.text else OpenText(tag) + (s.text + (CloseText(tag) + PrintUnclosed(rest)))
  }

  lemma UnclosedStarts(segments: seq<Segment>)
    requires segments != [] && segments[0].kind.Tagged?
    ensures PrintUnclosed(segments) != "" && PrintUnclosed(segments)[0] == '<'
  {
  }

  lemma UnclosedNarration(a: Alphabet, done: seq<Segment>, s: Segment, rest: seq<Segment>)
    requires a.Valid() && Printable(a, [s] + rest) && s.kind.Narration?
    ensures Run(a, Parsing(done, None, ""), PrintUnclosed([s] + rest)) == Run(a, Parsing(done, None, s.text), PrintUnclosed(rest))
  {
    PrintableRest(a, s, rest);
    if rest != [] { UnclosedStarts(rest); }
    assert ([s] + rest)[1..] == rest;
    CleanGoesToBuffer(a, Parsing(done, None, ""), s.text, PrintUnclosed(rest));
    assert "" + s.text == s.text;
  }

  lemma UnclosedTagged(a: Alphabet, done: seq<Segment>, pending: string, s: Segment, rest: seq<Segment>)
    requires a.Valid() && Printable(a, [s] + rest) && s.kind.Tagged? && (pending == "" || Trimmed(a, pending)) && rest != []
    ensures Run(a, Parsing(done, None, pending), PrintUnclosed([s] + rest))
         == Run(a, Parsing(done + Pending(pending) + [s], None, ""), PrintUnclosed(rest))
  {
    PrintableRest(a, s, rest);
    assert ([s] + rest)[1..] == rest;
    TaggedRuns(a, done, pending, s.kind.tag, s.text, PrintUnclosed(rest));
  }

  lemma OpenedText(a: Alphabet, done: seq<Segment>, tag: Tag, text: string)
    requires a.Valid() && Clean(a, text)
    ensures Run(a, Parsing(done, Some(tag), ""), text) == Run(a, Parsing(done, Some(tag), text), "")
  {
    CleanGoesToBuffer(a, Parsing(done, Some(tag), ""), text, "");
    assert text + "" == text && "" + text == text;
  }

  lemma FinishOpened(a: Alphabet, done: seq<Segment>, tag: Tag, text: string)
    requires Trimmed(a, text)
    ensures Finish(a, Run(a, Parsing(done, Some(tag), text), "")) == done + [Segment(Tagged(tag), text)]
  {
    StripTrimmed(a, text);
  }

  lemma UnclosedLast(a: Alphabet, done: seq<Segment>, pending: string, s: Segment)
    requires a.Valid() && Trimmed(a, s.text) && Clean(a, s.text) && s.kind.Tagged? && (pending == "" || Trimmed(a, pending))
    ensures Finish(a, Run(a, Parsing(done, None, pending), OpenText(s.kind.tag) + s.text)) == done + Pending(pending) + [s]
  {
    OpenRuns(a, done, pending, s.kind.tag, s.text);
    OpenedText(a, done + Pending(pending), s.kind.tag, s.text);
    FinishOpened(a, done + Pending(pending), s.kind.tag, s.text);
  }

  lemma {:induction false} ParseUnclosedFrom(a: Alphabet, done: seq<Segment>, pending: string, segments: seq<Segment>)
    requires a.Valid() && Printable(a, segments)
    requires pending == "" || (Trimmed(a, pending) && (segments == [] || segments[0].kind.Tagged?))
    ensures Finish(a, Run(a, Parsing(done, None, pending), PrintUnclosed(segments))) == done + Pending(pending) + segments
    decreases |segments|
  {
    if segments == [] {
      FlushPending(a, done, None, pending);
      assert done + Pending(pending) + [] == done + Pending(pending);
    } else {
      var s, rest := segments[0], segments[1..];
      assert segments == [s] + rest;
      PrintableRest(a, s, rest);
      if s.kind.Narration? {
        UnclosedNarration(a, done, s, rest);
        ParseUnclosedFrom(a, done, s.text, rest);
        JoinNarration(done, s, rest);
      } else if rest == [] {
        UnclosedLast(a, done, pending, s);
        assert PrintUnclosed(segments) == OpenText(s.kind.tag) + s.text;
      } else {
        UnclosedTagged(a, done, pending, s, rest);
        ParseUnclosedFrom(a, done + Pending(pending) + [s], "", rest);
        JoinTagged(done + Pending(pending), s, rest);
      }
    }
  }

  /** A last tag that the reply never closes is closed at its end: the segments are the same
      as if it had been. */
  lemma ParseUnclosed(a: Alphabet, segments: seq<Segment>)
    requires a.Valid() && Printable(a, segments)
    ensures Parse(a, PrintUnclosed(segments)) == segments
  {
    ParseUnclosedFrom(a, [], "", segments);
    NothingBefore(segments);
  }

  lemma NothingBefore(segments: seq<Segment>)
    ensures [] + Pending("") + segments == segments
  {
  }
}
