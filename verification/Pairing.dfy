/** What it means for a history to answer its tool questions. */
module Pairing {
  import opened Protocol
  import opened Sequences

  // ---- Questions, answers and speech in a history ------------------------

  function Questions(evs: seq<Event>): seq<RawCall>
    decreases |evs|
  {
    if evs == [] then []
    else
      var front, e := Questions(evs[..|evs| - 1]), evs[|evs| - 1];
      if e.Asked? then front + [RawCall(e.id, e.name, e.arguments)] else front
  }

  function Answers(evs: seq<Event>): seq<string>
    decreases |evs|
  {
    if evs == [] then []
    else
      var front, e := Answers(evs[..|evs| - 1]), evs[|evs| - 1];
      if e.Answered? then front + [e.id] else front
  }

  function Spoken(evs: seq<Event>): string
    decreases |evs|
  {
    if evs == [] then ""
    else
      var front, e := Spoken(evs[..|evs| - 1]), evs[|evs| - 1];
      if e.Said? then front + e.text else front
  }

  function Ids(calls: seq<RawCall>): seq<string> {
    seq(|calls|, i requires 0 <= i < |calls| => calls[i].id)
  }

  /** Only what an assistant turn may hold: its speech and its questions. */
  ghost predicate OnlyAsks(evs: seq<Event>) {
    forall i :: 0 <= i < |evs| ==> evs[i].Asked? || (evs[i].Said? && evs[i].speaker.ByAssistant?)
  }

  function Question(e: Event): seq<RawCall> {
    if e.Asked? then [RawCall(e.id, e.name, e.arguments)] else []
  }

  function AnswerId(e: Event): seq<string> {
    if e.Answered? then [e.id] else []
  }

  function Speech(e: Event): string {
    if e.Said? then e.text else ""
  }

  lemma ReadingSnoc(evs: seq<Event>, e: Event)
    ensures Questions(evs + [e]) == Questions(evs) + Question(e)
    ensures Answers(evs + [e]) == Answers(evs) + AnswerId(e)
    ensures Spoken(evs + [e]) == Spoken(evs) + Speech(e)
  {
    assert (evs + [e])[..|evs|] == evs;
    assert Questions(evs) + [] == Questions(evs) && Answers(evs) + [] == Answers(evs) && Spoken(evs) + "" == Spoken(evs);
  }

  lemma AnswerReads(evs: seq<Event>, id: string, text: string)
    ensures Questions(evs + [Answered(id, text)]) == Questions(evs)
    ensures Answers(evs + [Answered(id, text)]) == Answers(evs) + [id]
  {
    assert (evs + [Answered(id, text)])[..|evs|] == evs;
  }

  lemma ReadingAppendOne(a: seq<Event>, front: seq<Event>, e: Event)
    requires Questions(a + front) == Questions(a) + Questions(front)
    requires Answers(a + front) == Answers(a) + Answers(front)
    requires Spoken(a + front) == Spoken(a) + Spoken(front)
    ensures Questions(a + (front + [e])) == Questions(a) + Questions(front + [e])
    ensures Answers(a + (front + [e])) == Answers(a) + Answers(front + [e])
    ensures Spoken(a + (front + [e])) == Spoken(a) + Spoken(front + [e])
  {
    Assoc(a, front, [e]);
    ReadingSnoc(a + front, e);
    ReadingSnoc(front, e);
    Assoc(Questions(a), Questions(front), Question(e));
    Assoc(Answers(a), Answers(front), AnswerId(e));
    Assoc(Spoken(a), Spoken(front), Speech(e));
  }

  lemma {:induction false} ReadingAppend(a: seq<Event>, b: seq<Event>)
    ensures Questions(a + b) == Questions(a) + Questions(b)
    ensures Answers(a + b) == Answers(a) + Answers(b)
    ensures Spoken(a + b) == Spoken(a) + Spoken(b)
    decreases |b|
  {
    if b == [] {
      assert a + b == a;
    } else {
      var front := b[..|b| - 1];
      assert b == front + [b[|b| - 1]];
      ReadingAppend(a, front);
      ReadingAppendOne(a, front, b[|b| - 1]);
    }
  }

  // ---- The ledger --------------------------------------------------------

  /** Questions still open, and whether answering them has begun. */
  datatype Ledger = Open(pending: seq<string>, answering: bool) | Broken

  const Clear := Open([], false)

  /** Once answering has begun nothing but the next answer may follow until every
      question is answered; nobody but the assistant speaks while one is open. */
  function Note(l: Ledger, e: Event): Ledger {
    if l.Broken? then Broken
    else match e
      case Said(speaker, _) =>
        if l.pending == [] || (speaker.ByAssistant? && !l.answering) then l else Broken
      case Asked(id, _, _) =>
        if l.answering then Broken else Open(l.pending + [id], false)
      case Answered(id, _) =>
        if l.pending != [] && l.pending[0] == id then Open(l.pending[1..], |l.pending| > 1) else Broken
  }

  function Pair(l: Ledger, evs: seq<Event>): Ledger
    decreases |evs|
  {
    if evs == [] then l else Note(Pair(l, evs[..|evs| - 1]), evs[|evs| - 1])
  }

  /** Every question is answered by exactly one answer, in call order, before
      anything else is said or asked. */
  ghost predicate Balanced(evs: seq<Event>) {
    Pair(Clear, evs) == Clear
  }

  lemma PairSnoc(l: Ledger, evs: seq<Event>, e: Event)
    ensures Pair(l, evs + [e]) == Note(Pair(l, evs), e)
  {
    assert (evs + [e])[..|evs|] == evs;
  }

  lemma {:induction false} PairAppend(l: Ledger, a: seq<Event>, b: seq<Event>)
    ensures Pair(l, a + b) == Pair(Pair(l, a), b)
    decreases |b|
  {
    if b == [] {
      assert a + b == a;
    } else {
      assert (a + b)[..|a + b| - 1] == a + b[..|b| - 1];
      PairAppend(l, a, b[..|b| - 1]);
    }
  }

  /** The meaning of the ledger: the ids asked are the ids answered, in the same
      order, followed by those still pending. */
  lemma {:induction false} PairsUp(evs: seq<Event>)
    requires Pair(Clear, evs).Open?
    ensures Ids(Questions(evs)) == Answers(evs) + Pair(Clear, evs).pending
    decreases |evs|
  {
    if evs != [] {
      var front, e := evs[..|evs| - 1], evs[|evs| - 1];
      PairsUp(front);
      var p := Pair(Clear, front).pending;
      if e.Answered? {
        assert Answers(front) + p == (Answers(front) + [p[0]]) + p[1..];
      } else if e.Asked? {
        assert Ids(Questions(evs)) == Ids(Questions(front)) + [e.id];
      }
    }
  }

  /** Nothing pending means nothing being answered. */
  lemma {:induction false} PairTidy(evs: seq<Event>)
    ensures Pair(Clear, evs).Open? && Pair(Clear, evs).pending == [] ==> Pair(Clear, evs) == Clear
    decreases |evs|
  {
    if evs != [] { PairTidy(evs[..|evs| - 1]); }
  }

  lemma {:induction false} PairAsks(p: seq<string>, evs: seq<Event>)
    requires OnlyAsks(evs)
    ensures Pair(Open(p, false), evs) == Open(p + Ids(Questions(evs)), false)
    decreases |evs|
  {
    if evs == [] {
      assert p + Ids(Questions(evs)) == p;
    } else {
      var front, e := evs[..|evs| - 1], evs[|evs| - 1];
      PairAsks(p, front);
      if e.Asked? {
        assert Ids(Questions(evs)) == Ids(Questions(front)) + [e.id];
        assert p + (Ids(Questions(front)) + [e.id]) == (p + Ids(Questions(front))) + [e.id];
      }
    }
  }

  lemma {:induction false} NoAnswersInAsks(evs: seq<Event>)
    requires OnlyAsks(evs)
    ensures Answers(evs) == []
    decreases |evs|
  {
    if evs != [] { NoAnswersInAsks(evs[..|evs| - 1]); }
  }

  lemma {:induction false} OnlyAsksSaid(texts: seq<string>)
    ensures OnlyAsks(SaidAll(ByAssistant, texts))
    ensures Questions(SaidAll(ByAssistant, texts)) == []
    ensures Spoken(SaidAll(ByAssistant, texts)) == Concat(texts)
    decreases |texts|
  {
    if texts != [] {
      var evs := SaidAll(ByAssistant, texts);
      assert evs[..|evs| - 1] == SaidAll(ByAssistant, texts[..|texts| - 1]);
      OnlyAsksSaid(texts[..|texts| - 1]);
    }
  }

  lemma {:induction false} QuestionsOfCalls(calls: seq<RawCall>)
    ensures OnlyAsks(AskedAll(calls)) && Questions(AskedAll(calls)) == calls
    ensures Spoken(AskedAll(calls)) == ""
    decreases |calls|
  {
    if calls != [] {
      var evs := AskedAll(calls);
      assert evs[..|evs| - 1] == AskedAll(calls[..|calls| - 1]);
      QuestionsOfCalls(calls[..|calls| - 1]);
    }
  }
}
