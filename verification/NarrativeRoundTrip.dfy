/** Printing segments as tagged text and parsing them gives the same segments back. */
module NarrativeRoundTrip {
  import opened SafeWrite
  import opened Sequences
  import opened NarrativeParser

  /** Every tag inside the text is an inline style tag, which segments keep as text. */
  predicate Clean(a: Alphabet, s: string)
    decreases |s|
  {
    if s == "" then true
    else
      match TagAt(a, s)
      case Some(f) => Known(Lower(f.name)).None? && InlineStyle(Lower(f.name)) && Clean(a, s[f.length..])
      case None => Clean(a, s[1..])
  }

  predicate Trimmed(a: Alphabet, s: string) {
    s != "" && !a.space(s[0]) && !a.space(s[|s| - 1])
  }

  predicate Printable(a: Alphabet, segments: seq<Segment>) {
    && (forall i :: 0 <= i < |segments| ==> Trimmed(a, segments[i].text) && Clean(a, segments[i].text))
    && (forall i :: 0 < i < |segments| ==> segments[i - 1].kind.Tagged? || segments[i].kind.Tagged?)
  }

  function Print(segments: seq<Segment>): string {
    if segments == [] then ""
    else
      var s := segments[0];
      match s.kind
      case Narration => s.text + Print(segments[1..])
      case Tagged(tag) => OpenText(tag) + (s.text + (CloseText(tag) + Print(segments[1..])))
  }

  /** The reply that selects the XML path holds a known open tag as it is written. */
  ghost predicate HasXml(reply: string) {
    exists i, tag :: StartsWithOpen(reply, i, tag)
  }

  predicate StartsWithOpen(reply: string, i: int, tag: Tag) {
    0 <= i <= |reply| && OpenText(tag) <= reply[i..]
  }

  // ---- Tags and what follows them ----------------------------------------

  lemma {:induction false} WordLengthOf(a: Alphabet, w: string, rest: string)
    requires forall i :: 0 <= i < |w| ==> a.word(w[i])
    requires rest == "" || !a.word(rest[0])
    ensures WordLength(a, w + rest) == |w|
  {
    if w == "" {
      assert w + rest == rest;
    } else {
      assert (w + rest)[1..] == w[1..] + rest;
      WordLengthOf(a, w[1..], rest);
    }
  }

  lemma WordLengthBefore(a: Alphabet, s: string, rest: string)
    requires rest == "" || !a.word(rest[0])
    ensures WordLength(a, s + rest) == WordLength(a, s)
  {
    var n := WordLength(a, s);
    assert s + rest == s[..n] + (s[n..] + rest);
    WordLengthOf(a, s[..n], s[n..] + rest);
  }

  lemma TagBodyBefore(a: Alphabet, body: string, close: bool, rest: string)
    requires a.Valid() && (rest == "" || rest[0] == '<')
    ensures TagBody(a, body + rest, close) == TagBody(a, body, close)
  {
    WordLengthBefore(a, body, rest);
    var n := WordLength(a, body);
    assert (body + rest)[..n] == body[..n];
  }

  /** A tag that begins in a text ends in it, when a tag or nothing follows. */
  lemma TagAtBefore(a: Alphabet, s: string, rest: string)
    requires a.Valid() && s != "" && (rest == "" || rest[0] == '<')
    ensures TagAt(a, s + rest) == TagAt(a, s)
  {
    if s[0] == '<' {
      if |s| > 1 && s[1] == '/' {
        assert (s + rest)[2..] == s[2..] + rest;
        TagBodyBefore(a, s[2..], true, rest);
      } else {
        assert (s + rest)[1..] == s[1..] + rest;
        TagBodyBefore(a, s[1..], false, rest);
      }
    }
  }

  lemma NameBody(a: Alphabet, name: string, close: bool, rest: string)
    requires a.Valid() && name != "" && forall i :: 0 <= i < |name| ==> a.word(name[i])
    ensures TagBody(a, name + (">" + rest), close) == Some(Found(|name| + if close then 3 else 2, close, name))
  {
    WordLengthOf(a, name, ">" + rest);
    assert (name + (">" + rest))[..|name|] == name;
  }

  lemma NameLetters(a: Alphabet, tag: Tag)
    requires a.Valid()
    ensures Name(tag) != "" && (forall i :: 0 <= i < |Name(tag)| ==> a.word(Name(tag)[i])) && Name(tag)[0] != '/'
  {
  }

  lemma TagAtOpen(a: Alphabet, body: string)
    requires body != "" && body[0] != '/'
    ensures TagAt(a, "<" + body) == TagBody(a, body, false)
  {
    assert ("<" + body)[1..] == body;
  }

  lemma TagAtClose(a: Alphabet, body: string)
    ensures TagAt(a, "</" + body) == TagBody(a, body, true)
  {
    assert ("</" + body)[2..] == body;
  }

  lemma OpenShape(name: string, rest: string)
    ensures ("<" + name + ">") + rest == "<" + (name + (">" + rest))
    ensures ("</" + name + ">") + rest == "</" + (name + (">" + rest))
  {
  }

  lemma KnownTagAt(a: Alphabet, tag: Tag, close: bool, rest: string)
    requires a.Valid()
    ensures var raw := if close then CloseText(tag) else OpenText(tag);
      TagAt(a, raw + rest) == Some(Found(|raw|, close, Name(tag)))
  {
    var body := Name(tag) + (">" + rest);
    NameLetters(a, tag);
    NameBody(a, Name(tag), close, rest);
    OpenShape(Name(tag), rest);
    if close { TagAtClose(a, body); } else { TagAtOpen(a, body); }
  }

  lemma NameIsKnown(tag: Tag)
    ensures Lower(Name(tag)) == Name(tag) && Known(Name(tag)) == Some(tag)
  {
  }

  // ---- Running over a text -----------------------------------------------

  function Run(a: Alphabet, p: Parsing, s: string): Parsing {
    Steps(a, p, Tokens(a, s, ""))
  }

  lemma StepsGap(a: Alphabet, p: Parsing, gap: string, rest: seq<Token>)
    ensures Steps(a, p, Gap(gap) + rest) == Steps(a, p.(buf := p.buf + gap), rest)
  {
    if gap == "" {
      assert Gap(gap) + rest == rest && p.buf + gap == p.buf;
    } else {
      assert (Gap(gap) + rest)[1..] == rest;
    }
  }

  /** Text gathered before a tag only lengthens the buffer. */
  lemma {:induction false} GapGoesToBuffer(a: Alphabet, p: Parsing, s: string, gap: string)
    ensures Steps(a, p, Tokens(a, s, gap)) == Run(a, p.(buf := p.buf + gap), s)
    decreases |s|
  {
    var q := p.(buf := p.buf + gap);
    if s == "" {
      assert Gap(gap) + [] == Gap(gap);
      StepsGap(a, p, gap, []);
    } else {
      match TagAt(a, s)
      case Some(f) =>
        var tag, rest := TagToken(f, s[..f.length]), Tokens(a, s[f.length..], "");
        assert Gap(gap) + tag + rest == Gap(gap) + (tag + rest) && [] + tag + rest == tag + rest;
        StepsGap(a, p, gap, tag + rest);
      case None =>
        GapGoesToBuffer(a, p, s[1..], gap + [s[0]]);
        GapGoesToBuffer(a, q, s[1..], "" + [s[0]]);
        assert p.buf + (gap + [s[0]]) == q.buf + ("" + [s[0]]);
    }
  }

  lemma TagTokens(a: Alphabet, raw: string, f: Found, rest: string)
    requires raw != "" && TagAt(a, raw + rest) == Some(f) && f.length == |raw|
    ensures Tokens(a, raw + rest, "") == TagToken(f, raw) + Tokens(a, rest, "")
  {
    assert (raw + rest)[..|raw|] == raw && (raw + rest)[|raw|..] == rest;
    assert [] + TagToken(f, raw) == TagToken(f, raw);
  }

  lemma InlineIsText(f: Found, raw: string)
    requires Known(Lower(f.name)).None? && InlineStyle(Lower(f.name)) && raw != ""
    ensures TagToken(f, raw) == Gap(raw)
  {
  }

  lemma CleanTag(a: Alphabet, s: string)
    requires s != "" && Clean(a, s) && TagAt(a, s).Some?
    ensures var f := TagAt(a, s).value;
      TagToken(f, s[..f.length]) == Gap(s[..f.length]) && Clean(a, s[f.length..])
  {
    var f := TagAt(a, s).value;
    InlineIsText(f, s[..f.length]);
  }

  lemma InlineToken(a: Alphabet, raw: string, more: string, rest: string, f: Found)
    requires a.Valid() && raw != "" && (rest == "" || rest[0] == '<')
    requires TagAt(a, raw + more) == Some(f) && f.length == |raw| && TagToken(f, raw) == Gap(raw)
    ensures Tokens(a, raw + (more + rest), "") == Gap(raw) + Tokens(a, more + rest, "")
  {
    TagAtBefore(a, raw + more, rest);
    Assoc(raw, more, rest);
    TagTokens(a, raw, f, more + rest);
  }

  lemma LetterToken(a: Alphabet, s: string, rest: string)
    requires a.Valid() && s != "" && (rest == "" || rest[0] == '<') && TagAt(a, s).None?
    ensures Tokens(a, s + rest, "") == Tokens(a, s[1..] + rest, [s[0]])
  {
    TagAtBefore(a, s, rest);
    assert (s + rest)[1..] == s[1..] + rest && "" + [s[0]] == [s[0]];
  }

  lemma SplitAt(s: string, n: nat, rest: string)
    requires n <= |s|
    ensures s[..n] + s[n..] == s && s[..n] + (s[n..] + rest) == s + rest
  {
  }

  lemma InlineRuns(a: Alphabet, p: Parsing, s: string, rest: string)
    requires a.Valid() && s != "" && Clean(a, s) && (rest == "" || rest[0] == '<') && TagAt(a, s).Some?
    ensures var n := TagAt(a, s).value.length;
      Clean(a, s[n..]) && Run(a, p, s + rest) == Run(a, p.(buf := p.buf + s[..n]), s[n..] + rest)
  {
    var f := TagAt(a, s).value;
    CleanTag(a, s);
    SplitAt(s, f.length, rest);
    InlineRun(a, p, s[..f.length], s[f.length..], rest, f);
  }

  lemma InlineRun(a: Alphabet, p: Parsing, raw: string, more: string, rest: string, f: Found)
    requires a.Valid() && raw != "" && (rest == "" || rest[0] == '<')
    requires TagAt(a, raw + more) == Some(f) && f.length == |raw| && TagToken(f, raw) == Gap(raw)
    ensures Run(a, p, raw + (more + rest)) == Run(a, p.(buf := p.buf + raw), more + rest)
  {
    InlineToken(a, raw, more, rest, f);
    StepsGap(a, p, raw, Tokens(a, more + rest, ""));
  }

  lemma LetterRuns(a: Alphabet, p: Parsing, s: string, rest: string)
    requires a.Valid() && s != "" && Clean(a, s) && (rest == "" || rest[0] == '<') && TagAt(a, s).None?
    ensures Clean(a, s[1..]) && Run(a, p, s + rest) == Run(a, p.(buf := p.buf + s[..1]), s[1..] + rest)
  {
    LetterToken(a, s, rest);
    assert s[..1] == [s[0]];
    GapGoesToBuffer(a, p, s[1..] + rest, [s[0]]);
  }

  lemma Longer(p: Parsing, s: string, n: nat)
    requires n <= |s|
    ensures p.(buf := p.buf + s[..n]).buf + s[n..] == p.buf + s
  {
    assert s[..n] + s[n..] == s;
  }

  lemma {:induction false} CleanGoesToBuffer(a: Alphabet, p: Parsing, s: string, rest: string)
    requires a.Valid() && Clean(a, s) && (rest == "" || rest[0] == '<')
    ensures Run(a, p, s + rest) == Run(a, p.(buf := p.buf + s), rest)
    decreases |s|
  {
    if s == "" {
      assert s + rest == rest && p.buf + s == p.buf;
    } else {
      var n := if TagAt(a, s).Some? then TagAt(a, s).value.length else 1;
      if TagAt(a, s).Some? { InlineRuns(a, p, s, rest); } else { LetterRuns(a, p, s, rest); }
      CleanGoesToBuffer(a, p.(buf := p.buf + s[..n]), s[n..], rest);
      Longer(p, s, n);
    }
  }

  lemma StepsHead(a: Alphabet, p: Parsing, t: Token, rest: seq<Token>)
    ensures Steps(a, p, [t] + rest) == Steps(a, Step(a, p, t), rest)
  {
    assert ([t] + rest)[1..] == rest;
  }

  lemma TagRuns(a: Alphabet, p: Parsing, tag: Tag, close: bool, rest: string)
    requires a.Valid()
    ensures Run(a, p, (if close then CloseText(tag) else OpenText(tag)) + rest)
         == Run(a, Step(a, p, if close then Close(tag) else Open(tag)), rest)
  {
    var raw := if close then CloseText(tag) else OpenText(tag);
    KnownTagAt(a, tag, close, rest);
    NameIsKnown(tag);
    TagTokens(a, raw, Found(|raw|, close, Name(tag)), rest);
    StepsHead(a, p, if close then Close(tag) else Open(tag), Tokens(a, rest, ""));
  }

  // ---- The round trip ----------------------------------------------------

  lemma StripTrimmed(a: Alphabet, s: string)
    requires s == "" || Trimmed(a, s)
    ensures Strip(a, s) == s
  {
  }

  function Pending(text: string): seq<Segment> {
    if text == "" then [] else [Segment(Narration, text)]
  }

  lemma FlushPending(a: Alphabet, done: seq<Segment>, current: Option<Tag>, text: string)
    requires text == "" || Trimmed(a, text)
    ensures Flush(a, Parsing(done, current, text), Narration) == Parsing(done + Pending(text), current, "")
  {
    StripTrimmed(a, text);
    assert done + [] == done;
  }

  lemma OpenRuns(a: Alphabet, done: seq<Segment>, pending: string, tag: Tag, rest: string)
    requires a.Valid() && (pending == "" || Trimmed(a, pending))
    ensures Run(a, Parsing(done, None, pending), OpenText(tag) + rest) == Run(a, Parsing(done + Pending(pending), Some(tag), ""), rest)
  {
    TagRuns(a, Parsing(done, None, pending), tag, false, rest);
    FlushPending(a, done, None, pending);
  }

  lemma CloseRuns(a: Alphabet, done: seq<Segment>, tag: Tag, text: string, rest: string)
    requires a.Valid() && Trimmed(a, text)
    ensures Run(a, Parsing(done, Some(tag), text), CloseText(tag) + rest)
         == Run(a, Parsing(done + [Segment(Tagged(tag), text)], None, ""), rest)
  {
    TagRuns(a, Parsing(done, Some(tag), text), tag, true, rest);
    StripTrimmed(a, text);
  }

  lemma TaggedRuns(a: Alphabet, done: seq<Segment>, pending: string, tag: Tag, text: string, rest: string)
    requires a.Valid() && (pending == "" || Trimmed(a, pending)) && Trimmed(a, text) && Clean(a, text)
    ensures Run(a, Parsing(done, None, pending), OpenText(tag) + (text + (CloseText(tag) + rest)))
         == Run(a, Parsing(done + Pending(pending) + [Segment(Tagged(tag), text)], None, ""), rest)
  {
    OpenRuns(a, done, pending, tag, text + (CloseText(tag) + rest));
    CleanGoesToBuffer(a, Parsing(done + Pending(pending), Some(tag), ""), text, CloseText(tag) + rest);
    assert "" + text == text;
    CloseRuns(a, done + Pending(pending), tag, text, rest);
  }

  lemma PrintableRest(a: Alphabet, s: Segment, rest: seq<Segment>)
    requires Printable(a, [s] + rest)
    ensures Printable(a, rest) && Trimmed(a, s.text) && Clean(a, s.text)
    ensures s.kind.Narration? && rest != [] ==> rest[0].kind.Tagged?
  {
    var all := [s] + rest;
    assert all[0] == s && (rest != [] ==> all[1] == rest[0]);
    assert forall i :: 0 <= i < |rest| ==> rest[i] == all[i + 1];
  }

  lemma PrintStarts(segments: seq<Segment>)
    requires segments != [] && segments[0].kind.Tagged?
    ensures Print(segments) != "" && Print(segments)[0] == '<'
  {
  }

  lemma NarrationRuns(a: Alphabet, done: seq<Segment>, s: Segment, rest: seq<Segment>)
    requires a.Valid() && Printable(a, [s] + rest) && s.kind.Narration?
    ensures Run(a, Parsing(done, None, ""), Print([s] + rest)) == Run(a, Parsing(done, None, s.text), Print(rest))
  {
    PrintableRest(a, s, rest);
    if rest != [] { PrintStarts(rest); }
    assert ([s] + rest)[1..] == rest;
    CleanGoesToBuffer(a, Parsing(done, None, ""), s.text, Print(rest));
    assert "" + s.text == s.text;
  }

  lemma TaggedSegmentRuns(a: Alphabet, done: seq<Segment>, pending: string, s: Segment, rest: seq<Segment>)
    requires a.Valid() && Printable(a, [s] + rest) && s.kind.Tagged? && (pending == "" || Trimmed(a, pending))
    ensures Run(a, Parsing(done, None, pending), Print([s] + rest)) == Run(a, Parsing(done + Pending(pending) + [s], None, ""), Print(rest))
  {
    PrintableRest(a, s, rest);
    assert ([s] + rest)[1..] == rest;
    TaggedRuns(a, done, pending, s.kind.tag, s.text, Print(rest));
  }

  lemma JoinNarration(done: seq<Segment>, s: Segment, rest: seq<Segment>)
    requires s.kind.Narration? && s.text != ""
    ensures done + Pending("") + ([s] + rest) == done + Pending(s.text) + rest
  {
    assert Pending(s.text) == [s];
  }

  lemma JoinTagged(done: seq<Segment>, s: Segment, rest: seq<Segment>)
    ensures (done + [s]) + Pending("") + rest == done + ([s] + rest)
  {
  }

  lemma {:induction false} ParsePrintedFrom(a: Alphabet, done: seq<Segment>, pending: string, segments: seq<Segment>)
    requires a.Valid() && Printable(a, segments)
    requires pending == "" || (Trimmed(a, pending) && (segments == [] || segments[0].kind.Tagged?))
    ensures Finish(a, Run(a, Parsing(done, None, pending), Print(segments))) == done + Pending(pending) + segments
    decreases |segments|
  {
    if segments == [] {
      FlushPending(a, done, None, pending);
      assert done + Pending(pending) + [] == done + Pending(pending);
    } else {
      var s, rest := segments[0], segments[1..];
      assert segments == [s] + rest;
      PrintableRest(a, s, rest);
      if s.kind.Narration? {
        NarrationRuns(a, done, s, rest);
        ParsePrintedFrom(a, done, s.text, rest);
        JoinNarration(done, s, rest);
      } else {
        TaggedSegmentRuns(a, done, pending, s, rest);
        ParsePrintedFrom(a, done + Pending(pending) + [s], "", rest);
        JoinTagged(done + Pending(pending), s, rest);
      }
    }
  }

  lemma {:induction false} PrintHasXml(segments: seq<Segment>, i: nat)
    requires i < |segments| && segments[i].kind.Tagged?
    ensures HasXml(Print(segments))
    decreases i
  {
    var s, text := segments[0], Print(segments);
    if s.kind.Tagged? {
      assert text[0..] == text;
      assert StartsWithOpen(text, 0, s.kind.tag);
    } else {
      PrintHasXml(segments[1..], i - 1);
      var rest := Print(segments[1..]);
      var j, tag :| StartsWithOpen(rest, j, tag);
      assert text[|s.text| + j..] == rest[j..];
      assert StartsWithOpen(text, |s.text| + j, tag);
    }
  }

  /** Segments whose texts are trimmed and hold no tags but inline styles, no two
      narrations adjacent and at least one tagged, take the XML path when printed and
      are parsed back exactly. */
  lemma ParsePrinted(a: Alphabet, segments: seq<Segment>)
    requires a.Valid() && Printable(a, segments) && exists i :: 0 <= i < |segments| && segments[i].kind.Tagged?
    ensures HasXml(Print(segments)) && Parse(a, Print(segments)) == segments
  {
    var i :| 0 <= i < |segments| && segments[i].kind.Tagged?;
    PrintHasXml(segments, i);
    ParsePrintedFrom(a, [], "", segments);
    assert [] + Pending("") + segments == segments;
  }
}
