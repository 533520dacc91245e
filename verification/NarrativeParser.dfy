/** The XML path of the narrative parser: tokenise, then cut into segments. */
module NarrativeParser {
  import opened SafeWrite
  import opened Sequences

  /** The character classes of the regular expressions and of strip(). */
  datatype Alphabet = Alphabet(word: char -> bool, space: char -> bool) {
    ghost predicate Valid() {
      && !word('<') && !word('/') && !word('>') && !space('<') && !space('>')
      && (forall c :: 'a' <= c <= 'z' ==> word(c) && !space(c))
    }
  }

  datatype Tag = Say | Do | Env | Feel

  datatype Kind = Narration | Tagged(tag: Tag)

  datatype Segment = Segment(kind: Kind, text: string)

  datatype Token = Words(text: string) | Open(tag: Tag) | Close(tag: Tag)

  function Name(t: Tag): string {
    match t case Say => "say" case Do => "do" case Env => "env" case Feel => "feel"
  }

  function Known(name: string): Option<Tag> {
    if name == "say" then Some(Say) else if name == "do" then Some(Do)
    else if name == "env" then Some(Env) else if name == "feel" then Some(Feel) else None
  }

  predicate InlineStyle(name: string) {
    name == "hl" || name == "big" || name == "sm"
  }

  // ---- Tokens ------------------------------------------------------------

  /** A tag at the start of a text: its length, whether it closes, its name. */
  datatype Found = Found(length: nat, close: bool, name: string)

  function WordLength(a: Alphabet, s: string): (n: nat)
    ensures n <= |s| && (forall i :: 0 <= i < n ==> a.word(s[i])) && (n < |s| ==> !a.word(s[n]))
  {
    if s != [] && a.word(s[0]) then 1 + WordLength(a, s[1..]) else 0
  }

  /** A name and its closing bracket at the start of what follows `<` or `</`. */
  function TagBody(a: Alphabet, body: string, close: bool): (f: Option<Found>)
    ensures f.Some? ==> 3 <= f.value.length <= |body| + if close then 2 else 1
  {
    var n := WordLength(a, body);
    if n == 0 || n == |body| || body[n] != '>' then None
    else Some(Found(n + if close then 3 else 2, close, body[..n]))
  }

  /** The match of <(/?)(\w+)> at the start of s. */
  function TagAt(a: Alphabet, s: string): (f: Option<Found>)
    ensures f.Some? ==> 3 <= f.value.length <= |s|
  {
    if s == "" || s[0] != '<' then None
    else if |s| > 1 && s[1] == '/' then TagBody(a, s[2..], true)
    else TagBody(a, s[1..], false)
  }

  function Gap(text: string): seq<Token> {
    if text == "" then [] else [Words(text)]
  }

  /** The token for a tag: a known tag, an inline style kept as text, or nothing. */
  function TagToken(f: Found, raw: string): seq<Token> {
    var name := Lower(f.name);
    if Known(name).Some? then [if f.close then Close(Known(name).value) else Open(Known(name).value)]
    else if InlineStyle(name) then [Words(raw)] else []
  }

  /** Tokens of s when `gap` is the text since the last tag. */
  function Tokens(a: Alphabet, s: string, gap: string): seq<Token>
    decreases |s|
  {
    if s == [] then Gap(gap)
    else
      match TagAt(a, s)
      case Some(f) => Gap(gap) + TagToken(f, s[..f.length]) + Tokens(a, s[f.length..], "")
      case None => Tokens(a, s[1..], gap + [s[0]])
  }

  // ---- Segments ----------------------------------------------------------

  function TrimLeft(a: Alphabet, s: string): string {
    if s != [] && a.space(s[0]) then TrimLeft(a, s[1..]) else s
  }

  function TrimRight(a: Alphabet, s: string): string {
    if s != [] && a.space(s[|s| - 1]) then TrimRight(a, s[..|s| - 1]) else s
  }

  function Strip(a: Alphabet, s: string): string {
    TrimRight(a, TrimLeft(a, s))
  }

  datatype Parsing = Parsing(segments: seq<Segment>, current: Option<Tag>, buf: string)

  function Flush(a: Alphabet, p: Parsing, kind: Kind): Parsing {
    var text := Strip(a, p.buf);
    p.(segments := if text == "" then p.segments else p.segments + [Segment(kind, text)], buf := "")
  }

  function OpenText(t: Tag): string { "<" + Name(t) + ">" }

  function CloseText(t: Tag): string { "</" + Name(t) + ">" }

  function Step(a: Alphabet, p: Parsing, t: Token): Parsing {
    match t
    case Words(text) => p.(buf := p.buf + text)
    case Open(tag) =>
      if p.current.None? then Flush(a, p, Narration).(current := Some(tag)) else p.(buf := p.buf + OpenText(tag))
    case Close(tag) =>
      if p.current == Some(tag) then Flush(a, p, Tagged(tag)).(current := None) else p.(buf := p.buf + CloseText(tag))
  }

  function Steps(a: Alphabet, p: Parsing, tokens: seq<Token>): Parsing
    decreases |tokens|
  {
    if tokens == [] then p else Steps(a, Step(a, p, tokens[0]), tokens[1..])
  }

  function Finish(a: Alphabet, p: Parsing): seq<Segment> {
    Flush(a, p, if p.current.Some? then Tagged(p.current.value) else Narration).segments
  }

  function Parse(a: Alphabet, reply: string): seq<Segment> {
    Finish(a, Steps(a, Parsing([], None, ""), Tokens(a, reply, "")))
  }

  // ---- The parser as it runs ---------------------------------------------

  /** What is left to do: the tokens so far, then those of the rest with this gap. */
  predicate Scans(a: Alphabet, whole: seq<Token>, done: seq<Token>, rest: string, gap: string) {
    whole == done + Tokens(a, rest, gap)
  }

  lemma Regroup<T>(done: seq<T>, gap: seq<T>, tag: seq<T>, rest: seq<T>)
    ensures done + (gap + tag + rest) == ((done + gap) + tag) + rest
  {
  }

  lemma ScanTag(a: Alphabet, whole: seq<Token>, done: seq<Token>, rest: string, gap: string, f: Found)
    requires Scans(a, whole, done, rest, gap) && TagAt(a, rest) == Some(f)
    ensures Scans(a, whole, (done + Gap(gap)) + TagToken(f, rest[..f.length]), rest[f.length..], "")
  {
    Regroup(done, Gap(gap), TagToken(f, rest[..f.length]), Tokens(a, rest[f.length..], ""));
  }

  lemma ScanLetter(a: Alphabet, whole: seq<Token>, done: seq<Token>, rest: string, gap: string)
    requires Scans(a, whole, done, rest, gap) && rest != "" && TagAt(a, rest).None?
    ensures Scans(a, whole, done, rest[1..], gap + rest[..1])
  {
    assert rest[..1] == [rest[0]];
  }

  lemma ScanEnd(a: Alphabet, whole: seq<Token>, done: seq<Token>, gap: string)
    ensures Scans(a, whole, done, "", gap) ==> whole == done + Gap(gap)
  {
  }

  lemma ScanStart(a: Alphabet, s: string)
    ensures Scans(a, Tokens(a, s, ""), [], s, "")
  {
  }

  /** `gap` is the text since the last tag, `rest` what is still to be scanned. */
  method Tokenise(a: Alphabet, reply: string) returns (tokens: seq<Token>)
    ensures tokens == Tokens(a, reply, "")
  {
    var gap, rest := "", reply;
    tokens := [];
    ScanStart(a, reply);
    while rest != ""
      invariant Scans(a, Tokens(a, reply, ""), tokens, rest, gap)
      decreases |rest|
    {
      var found := TagAt(a, rest);
      if found.Some? {
        var f := found.value;
        ScanTag(a, Tokens(a, reply, ""), tokens, rest, gap, f);
        tokens := tokens + Gap(gap);
        tokens := tokens + TagToken(f, rest[..f.length]);
        gap, rest := "", rest[f.length..];
      } else {
        ScanLetter(a, Tokens(a, reply, ""), tokens, rest, gap);
        gap, rest := gap + rest[..1], rest[1..];
      }
    }
    ScanEnd(a, Tokens(a, reply, ""), tokens, gap);
    tokens := tokens + Gap(gap);
  }

  method ParseXml(a: Alphabet, reply: string) returns (segments: seq<Segment>)
    ensures segments == Parse(a, reply)
  {
    var tokens := Tokenise(a, reply);
    segments := [];
    var current: Option<Tag>, buf := None, "";
    assert tokens[0..] == tokens;
    for i := 0 to |tokens|
      invariant Steps(a, Parsing([], None, ""), tokens) == Steps(a, Parsing(segments, current, buf), tokens[i..])
    {
      assert tokens[i..][0] == tokens[i] && tokens[i..][1..] == tokens[i + 1..];
      match tokens[i]
      case Words(text) => buf := buf + text;
      case Open(tag) =>
        if current.None? {
          var text := Strip(a, buf);
          if text != "" { segments := segments + [Segment(Narration, text)]; }
          current, buf := Some(tag), "";
        } else {
          buf := buf + OpenText(tag);
        }
      case Close(tag) =>
        if current == Some(tag) {
          var text := Strip(a, buf);
          if text != "" { segments := segments + [Segment(Tagged(tag), text)]; }
          current, buf := None, "";
        } else {
          buf := buf + CloseText(tag);
        }
    }
    var text := Strip(a, buf);
    if text != "" {
      segments := segments + [Segment(if current.Some? then Tagged(current.value) else Narration, text)];
    }
  }

  // ---- No visible text is lost -------------------------------------------

  function Visible(a: Alphabet, s: string): string {
    if s == [] then "" else (if a.space(s[0]) then "" else [s[0]]) + Visible(a, s[1..])
  }

  lemma {:induction false} VisibleAppend(a: Alphabet, s: string, t: string)
    ensures Visible(a, s + t) == Visible(a, s) + Visible(a, t)
  {
    if s == [] {
      assert s + t == t;
    } else {
      assert (s + t)[1..] == s[1..] + t;
      VisibleAppend(a, s[1..], t);
    }
  }

  lemma {:induction false} TrimLeftVisible(a: Alphabet, s: string)
    ensures Visible(a, TrimLeft(a, s)) == Visible(a, s)
  {
    if s != [] && a.space(s[0]) { TrimLeftVisible(a, s[1..]); }
  }

  lemma {:induction false} TrimRightVisible(a: Alphabet, s: string)
    ensures Visible(a, TrimRight(a, s)) == Visible(a, s)
    decreases |s|
  {
    if s != [] && a.space(s[|s| - 1]) {
      TrimRightVisible(a, s[..|s| - 1]);
      assert s == s[..|s| - 1] + [s[|s| - 1]];
      VisibleAppend(a, s[..|s| - 1], [s[|s| - 1]]);
    }
  }

  lemma StripVisible(a: Alphabet, s: string)
    ensures Visible(a, Strip(a, s)) == Visible(a, s)
  {
    TrimLeftVisible(a, s);
    TrimRightVisible(a, TrimLeft(a, s));
  }

  /** The texts and the tags that do not open or close a segment, in order. */
  function Shown(tokens: seq<Token>, current: Option<Tag>): string
    decreases |tokens|
  {
    if tokens == [] then ""
    else
      match tokens[0]
      case Words(text) => text + Shown(tokens[1..], current)
      case Open(tag) => if current.None? then Shown(tokens[1..], Some(tag)) else OpenText(tag) + Shown(tokens[1..], current)
      case Close(tag) => if current == Some(tag) then Shown(tokens[1..], None) else CloseText(tag) + Shown(tokens[1..], current)
  }

  function Texts(segments: seq<Segment>): string
    decreases |segments|
  {
    if segments == [] then "" else Texts(segments[..|segments| - 1]) + segments[|segments| - 1].text
  }

  function Held(a: Alphabet, p: Parsing): string {
    Visible(a, Texts(p.segments)) + Visible(a, p.buf)
  }

  lemma FlushHolds(a: Alphabet, p: Parsing, kind: Kind)
    ensures Held(a, Flush(a, p, kind)) == Held(a, p)
  {
    var text := Strip(a, p.buf);
    StripVisible(a, p.buf);
    var more := p.segments + [Segment(kind, text)];
    assert more[..|more| - 1] == p.segments;
    VisibleAppend(a, Texts(p.segments), text);
  }

  lemma AddedHolds(a: Alphabet, p: Parsing, added: string, rest: string)
    ensures Held(a, p.(buf := p.buf + added)) + Visible(a, rest) == Held(a, p) + Visible(a, added + rest)
  {
    VisibleAppend(a, p.buf, added);
    VisibleAppend(a, added, rest);
    Assoc(Visible(a, Texts(p.segments)), Visible(a, p.buf), Visible(a, added));
    Assoc(Held(a, p), Visible(a, added), Visible(a, rest));
  }

  lemma StepHolds(a: Alphabet, p: Parsing, t: Token, rest: seq<Token>)
    ensures var q := Step(a, p, t);
      Held(a, q) + Visible(a, Shown(rest, q.current)) == Held(a, p) + Visible(a, Shown([t] + rest, p.current))
  {
    assert ([t] + rest)[1..] == rest;
    match t
    case Words(text) => AddedHolds(a, p, text, Shown(rest, p.current));
    case Open(tag) =>
      if p.current.None? { FlushHolds(a, p, Narration); } else { AddedHolds(a, p, OpenText(tag), Shown(rest, p.current)); }
    case Close(tag) =>
      if p.current == Some(tag) { FlushHolds(a, p, Tagged(tag)); } else { AddedHolds(a, p, CloseText(tag), Shown(rest, p.current)); }
  }

  lemma {:induction false} StepsHold(a: Alphabet, p: Parsing, tokens: seq<Token>)
    ensures Held(a, Steps(a, p, tokens)) == Held(a, p) + Visible(a, Shown(tokens, p.current))
    decreases |tokens|
  {
    if tokens != [] {
      StepHolds(a, p, tokens[0], tokens[1..]);
      assert tokens == [tokens[0]] + tokens[1..];
      StepsHold(a, Step(a, p, tokens[0]), tokens[1..]);
    }
  }

  lemma FinishHolds(a: Alphabet, p: Parsing)
    ensures Visible(a, Texts(Finish(a, p))) == Held(a, p)
  {
    FlushHolds(a, p, if p.current.Some? then Tagged(p.current.value) else Narration);
  }

  lemma StartHolds(a: Alphabet, shown: string)
    ensures Held(a, Parsing([], None, "")) + shown == shown
  {
    assert Held(a, Parsing([], None, "")) == "";
  }

  /** The segments show, character for character and in order, everything but spaces
      that the texts and the folded-back tags of the reply hold. */
  lemma NothingVisibleIsLost(a: Alphabet, reply: string)
    ensures Visible(a, Texts(Parse(a, reply))) == Visible(a, Shown(Tokens(a, reply, ""), None))
  {
    var tokens := Tokens(a, reply, "");
    StepsHold(a, Parsing([], None, ""), tokens);
    FinishHolds(a, Steps(a, Parsing([], None, ""), tokens));
    StartHolds(a, Visible(a, Shown(tokens, None)));
  }

  // ---- Tokens cover the reply --------------------------------------------

  function TokenText(t: Token): string {
    match t case Words(text) => text case Open(tag) => OpenText(tag) case Close(tag) => CloseText(tag)
  }

  function Source(tokens: seq<Token>): string
    decreases |tokens|
  {
    if tokens == [] then "" else TokenText(tokens[0]) + Source(tokens[1..])
  }

  /** What a tag contributes to the canonical reply. */
  function Kept(f: Found, raw: string): string {
    var name := Lower(f.name);
    if Known(name).Some? then (if f.close then "</" + name + ">" else "<" + name + ">")
    else if InlineStyle(name) then raw else ""
  }

  /** The reply with its known tags in lower case and its unknown tags taken out. */
  function Canonical(a: Alphabet, s: string): string
    decreases |s|
  {
    if s == "" then ""
    else
      match TagAt(a, s)
      case None => [s[0]] + Canonical(a, s[1..])
      case Some(f) =>
        Kept(f, s[..f.length]) + Canonical(a, s[f.length..])
  }

  lemma {:induction false} SourceAppend(x: seq<Token>, y: seq<Token>)
    ensures Source(x + y) == Source(x) + Source(y)
    decreases |x|
  {
    if x == [] {
      assert x + y == y;
    } else {
      assert (x + y)[1..] == x[1..] + y;
      SourceAppend(x[1..], y);
    }
  }

  lemma GapSource(gap: string)
    ensures Source(Gap(gap)) == gap
  {
    if gap != "" { assert [Words(gap)][1..] == []; }
  }

  lemma TagSource(f: Found, raw: string)
    ensures Source(TagToken(f, raw)) == Kept(f, raw)
  {
    NameOfKnown(Lower(f.name));
    var tokens := TagToken(f, raw);
    if tokens != [] { assert tokens[1..] == [] && Source(tokens) == TokenText(tokens[0]); }
  }

  lemma NameOfKnown(name: string)
    ensures Known(name).Some? ==> Name(Known(name).value) == name
  {
  }

  lemma CoverTag(gap: string, f: Found, raw: string, rest: seq<Token>, canonical: string)
    requires Source(rest) == canonical
    ensures Source(Gap(gap) + TagToken(f, raw) + rest) == gap + (Kept(f, raw) + canonical)
  {
    GapSource(gap);
    TagSource(f, raw);
    SourceAppend(Gap(gap), TagToken(f, raw));
    SourceAppend(Gap(gap) + TagToken(f, raw), rest);
    Assoc(gap, Kept(f, raw), canonical);
  }

  /** No token is lost, invented or moved: put together again, the tokens are the reply
      but for unknown tags and the case of known ones. */
  lemma {:induction false} TokensCoverReply(a: Alphabet, s: string, gap: string)
    ensures Source(Tokens(a, s, gap)) == gap + Canonical(a, s)
    decreases |s|
  {
    if s == "" {
      GapSource(gap);
      assert gap + "" == gap;
    } else if TagAt(a, s).Some? {
      var f := TagAt(a, s).value;
      TokensCoverReply(a, s[f.length..], "");
      assert "" + Canonical(a, s[f.length..]) == Canonical(a, s[f.length..]);
      CoverTag(gap, f, s[..f.length], Tokens(a, s[f.length..], ""), Canonical(a, s[f.length..]));
    } else {
      TokensCoverReply(a, s[1..], gap + [s[0]]);
      Assoc(gap, [s[0]], Canonical(a, s[1..]));
    }
  }
}
