/** The byte framer of src/session.cpp as a function: messages are cut out of a stream between the
    first opening brace and the first closing brace after it. */
module Framing {
  import opened Basics
  import opened Elements

  const START: char := '{'
  const END: char := '}'

  /** One complete message of the stream with the junk that precedes it. */
  datatype Message = Message(junk: string, body: string)

  ghost predicate IsMessage(m: Message) {
    START !in m.junk && END !in m.body
  }

  function Frame(m: Message): string {
    [START] + m.body + [END]
  }

  function RenderOne(m: Message): string {
    m.junk + Frame(m)
  }

  function Render(ms: seq<Message>): string {
    if ms == [] then [] else Render(Front(ms)) + RenderOne(Last(ms))
  }

  /** No opening brace is followed by a closing brace. */
  ghost predicate Incomplete(t: string) {
    forall i, j :: 0 <= i < j < |t| && t[i] == START ==> t[j] != END
  }

  /** The reference: a two-state automaton that reads one byte at a time. It is seeking an
      opening brace (`body` is None) or inside a message. */
  datatype Scanner = Scanner(messages: seq<Message>, junk: string, body: Option<string>)

  const IDLE := Scanner([], [], None)

  function Step(m: Scanner, c: char): Scanner {
    match m.body
    case None =>
      if c == START then m.(body := Some([])) else m.(junk := m.junk + [c])
    case Some(body) =>
      if c == END then Scanner(m.messages + [Message(m.junk, body)], [], None)
      else m.(body := Some(body + [c]))
  }

  function Run(m: Scanner, s: string): Scanner {
    if s == [] then m else Step(Run(m, Front(s)), Last(s))
  }

  /** The bytes the automaton has read since the last complete message. */
  function Buffer(m: Scanner): string {
    m.junk + match m.body case None => [] case Some(body) => [START] + body
  }

  function ElementsOf(decode: Decoder, ms: seq<Message>): seq<Element> {
    if ms == [] then [] else ElementsOf(decode, Front(ms)) + [ElementOf(decode, Frame(Last(ms)))]
  }

  /** Everything a session has to emit for the bytes it received. */
  function Emitted(decode: Decoder, received: string): seq<Element> {
    ElementsOf(decode, Run(IDLE, received).messages)
  }

  lemma {:induction false} ElementsOfConcat(decode: Decoder, a: seq<Message>, b: seq<Message>)
    ensures ElementsOf(decode, a + b) == ElementsOf(decode, a) + ElementsOf(decode, b)
  {
    if b == [] {
      assert a + b == a;
    } else {
      ElementsOfConcat(decode, a, Front(b));
      assert Front(a + b) == a + Front(b);
    }
  }

  lemma {:induction false} RunConcat(m: Scanner, a: string, b: string)
    ensures Run(m, a + b) == Run(Run(m, a), b)
  {
    if b == [] {
      assert a + b == a;
    } else {
      RunConcat(m, a, Front(b));
      assert Front(a + b) == a + Front(b);
    }
  }

  /** Earlier messages never influence later ones. */
  lemma {:induction false} RunForgets(m: Scanner, s: string)
    ensures var r := Run(m.(messages := []), s);
            Run(m, s) == r.(messages := m.messages + r.messages)
  {
    if s == [] {
      assert m.messages + [] == m.messages;
    } else {
      RunForgets(m, Front(s));
    }
  }

  lemma {:induction false} RunSeeking(m: Scanner, s: string)
    requires m.body == None && START !in s
    ensures Run(m, s) == m.(junk := m.junk + s)
  {
    if s == [] {
      assert m.junk + s == m.junk;
    } else {
      RunSeeking(m, Front(s));
      assert m.junk + s == m.junk + Front(s) + [Last(s)];
    }
  }

  lemma {:induction false} RunInside(m: Scanner, s: string)
    requires m.body.Some? && END !in s
    ensures Run(m, s) == m.(body := Some(m.body.value + s))
  {
    if s == [] {
      assert m.body.value + s == m.body.value;
    } else {
      RunInside(m, Front(s));
      assert m.body.value + s == m.body.value + Front(s) + [Last(s)];
    }
  }

  lemma RunMessage(ms: seq<Message>, m: Message)
    requires IsMessage(m)
    ensures Run(Scanner(ms, [], None), RenderOne(m)) == Scanner(ms + [m], [], None)
  {
    var s0 := Scanner(ms, [], None);
    var s1 := Scanner(ms, m.junk, None);
    assert Run(s0, m.junk) == s1 by { RunSeeking(s0, m.junk); }
    var s2 := s1.(body := Some([]));
    assert Run(s1, [START]) == s2;
    assert Run(s2, m.body) == s2.(body := Some(m.body)) by {
      RunInside(s2, m.body);
      assert [] + m.body == m.body;
    }
    assert Run(s2, m.body + [END]) == Scanner(ms + [m], [], None) by {
      RunConcat(s2, m.body, [END]);
    }
    RunConcat(s1, [START], m.body + [END]);
    RunConcat(s0, m.junk, [START] + (m.body + [END]));
    assert RenderOne(m) == m.junk + ([START] + (m.body + [END]));
  }

  /** Reading the bytes kept in a buffer leads back to the automaton state they came from. */
  lemma RunBuffer(ms: seq<Message>, junk: string, body: Option<string>)
    requires START !in junk && (body.Some? ==> END !in body.value)
    ensures var m := Scanner(ms, junk, body); Run(Scanner(ms, [], None), Buffer(m)) == m
  {
    var s0 := Scanner(ms, [], None);
    var s1 := Scanner(ms, junk, None);
    assert Run(s0, junk) == s1 by {
      RunSeeking(s0, junk);
      assert [] + junk == junk;
    }
    if body.Some? {
      var s2 := Scanner(ms, junk, Some([]));
      assert Run(s1, [START]) == s2;
      assert Run(s2, body.value) == Scanner(ms, junk, body) by {
        RunInside(s2, body.value);
        assert [] + body.value == body.value;
      }
      RunConcat(s1, [START], body.value);
      RunConcat(s0, junk, [START] + body.value);
    } else {
      assert junk + [] == junk;
    }
  }

  lemma RunIncomplete(ms: seq<Message>, t: string)
    requires Incomplete(t)
    ensures var r := Run(Scanner(ms, [], None), t); r.messages == ms && Buffer(r) == t
  {
    var i := Find(t, START, 0);
    var junk := t[..i];
    assert START !in junk;
    if i < |t| {
      var body := t[i + 1..];
      assert forall j :: 0 <= j < |body| ==> body[j] == t[i + 1 + j];
      assert END !in body;
      RunBuffer(ms, junk, Some(body));
      assert t == junk + ([START] + body);
    } else {
      RunBuffer(ms, junk, None);
      assert t == junk == junk + [];
    }
  }

  /** Whatever messages and junk a client renders, and however the stream is left hanging, the
      automaton gives back exactly the messages and keeps exactly the hanging part. */
  lemma {:induction false} RenderedMessagesComeBack(ms: seq<Message>, tail: string)
    requires (forall m :: m in ms ==> IsMessage(m)) && Incomplete(tail)
    ensures var r := Run(IDLE, Render(ms) + tail); r.messages == ms && Buffer(r) == tail
  {
    RunRender(ms);
    RunConcat(IDLE, Render(ms), tail);
    RunIncomplete(ms, tail);
  }

  lemma {:induction false} RunRender(ms: seq<Message>)
    requires forall m :: m in ms ==> IsMessage(m)
    ensures Run(IDLE, Render(ms)) == Scanner(ms, [], None)
  {
    if ms == [] {
    } else {
      RunRender(Front(ms));
      RunConcat(IDLE, Render(Front(ms)), RenderOne(Last(ms)));
      RunMessage(Front(ms), Last(ms));
      assert Front(ms) + [Last(ms)] == ms;
    }
  }

  ghost predicate IsSplit(s: string, ms: seq<Message>, tail: string) {
    s == Render(ms) + tail && (forall m :: m in ms ==> IsMessage(m)) && Incomplete(tail)
  }

  ghost predicate Consistent(s: string, m: Scanner) {
    && s == Render(m.messages) + Buffer(m)
    && (forall msg :: msg in m.messages ==> IsMessage(msg))
    && START !in m.junk
    && (m.body.Some? ==> END !in m.body.value)
  }

  lemma StepConsistent(s: string, m: Scanner, c: char)
    requires Consistent(s, m)
    ensures Consistent(s + [c], Step(m, c))
  {
    var m' := Step(m, c);
    if m.body.Some? && c == END {
      var msg := Message(m.junk, m.body.value);
      RenderNext(m.messages, msg);
      assert RenderOne(msg) == Buffer(m) + [c];
      ConcatAssociates(Render(m.messages), Buffer(m), [c]);
      assert Render(m'.messages) + [] == Render(m'.messages);
    } else {
      assert Buffer(m') == Buffer(m) + [c];
      ConcatAssociates(Render(m.messages), Buffer(m), [c]);
    }
  }

  lemma RenderNext(ms: seq<Message>, m: Message)
    ensures Render(ms + [m]) == Render(ms) + RenderOne(m)
  {
    assert Front(ms + [m]) == ms;
  }

  lemma {:induction false} RunConsistent(s: string)
    ensures Consistent(s, Run(IDLE, s))
  {
    if s == [] {
    } else {
      RunConsistent(Front(s));
      StepConsistent(Front(s), Run(IDLE, Front(s)), Last(s));
      assert s == Front(s) + [Last(s)];
    }
  }

  /** The automaton computes a split of everything it has read. */
  lemma RunSplits(s: string)
    ensures IsSplit(s, Run(IDLE, s).messages, Buffer(Run(IDLE, s)))
  {
    RunConsistent(s);
    var m := Run(IDLE, s);
    var t := Buffer(m);
    forall i, j | 0 <= i < j < |t| && t[i] == START
      ensures t[j] != END
    {
      assert t[i] != START || i >= |m.junk|;
      if m.body.Some? {
        assert t[j] == m.body.value[j - |m.junk| - 1];
      }
    }
  }

  /** Every byte string has exactly one split into messages and an incomplete remainder, and it
      is the one the automaton computes. */
  lemma UniqueSplit(s: string, ms: seq<Message>, tail: string)
    ensures IsSplit(s, ms, tail) <==>
            ms == Run(IDLE, s).messages && tail == Buffer(Run(IDLE, s))
  {
    RunSplits(s);
    if IsSplit(s, ms, tail) {
      RenderedMessagesComeBack(ms, tail);
    }
  }

  /** What a message is, in terms of the bytes themselves: it begins with the first opening brace of what
      has been read since the message before it, and ends with the first closing brace behind it. */
  lemma MessagesAreBraced(s: string)
    ensures var ms := Run(IDLE, s).messages;
            forall m :: m in ms ==>
              && '{' !in m.junk && '}' !in m.body
              && RenderOne(m) == m.junk + "{" + m.body + "}" && Frame(m) == "{" + m.body + "}"
  {
    RunSplits(s);
    forall m | m in Run(IDLE, s).messages
      ensures RenderOne(m) == m.junk + "{" + m.body + "}"
    {
      assert m.junk + ("{" + m.body + "}") == m.junk + "{" + m.body + "}";
    }
  }

  /** Every message becomes exactly one element, in order: the log record it parses to, or a critical
      element with the exception's text. */
  lemma {:induction false} MessagesBecomeElements(decode: Decoder, ms: seq<Message>, i: nat)
    requires i < |ms|
    ensures |ElementsOf(decode, ms)| == |ms|
    ensures var e := ElementsOf(decode, ms)[i];
            match decode("{" + ms[i].body + "}")
            case Parsed(level, message) => e == Element(level, message)
            case Failed(what) => e.level == 5 && e.message == "Scriptor Json Parse Error: " + what
  {
    if i == |ms| - 1 {
      if |ms| > 1 {
        MessagesBecomeElements(decode, Front(ms), 0);
      }
    } else {
      MessagesBecomeElements(decode, Front(ms), i);
    }
  }

  /** A client that renders messages with arbitrary text between the braces gets them back, with
      nothing held back, exactly when no junk contains an opening brace and no body a closing one.
      A closing brace inside a JSON string is enough to break a message. */
  lemma RoundTripExactlyWhen(ms: seq<Message>)
    ensures Run(IDLE, Render(ms)) == Scanner(ms, [], None) <==> forall m :: m in ms ==> IsMessage(m)
  {
    if forall m :: m in ms ==> IsMessage(m) {
      RunRender(ms);
    } else {
      RunSplits(Render(ms));
    }
  }

  lemma ClosingBraceInStringBreaksMessage()
    ensures var ms := [Message([], "\"m\":\"}\"")];
            Run(IDLE, Render(ms)).messages == [Message([], "\"m\":\"")]
  {
    var ms := [Message([], "\"m\":\"}\"")];
    var cut := Message([], "\"m\":\"");
    assert IsSplit(Render(ms), [cut], "\"}") by {
      assert Front(ms) == [] && Front([cut]) == [];
      assert Render(ms) == Render([cut]) + "\"}";
    }
    UniqueSplit(Render(ms), [cut], "\"}");
  }

  /** Rescanning the kept bytes from the beginning loses nothing. */
  lemma Rescan(received: string, data: string)
    ensures var r := Run(IDLE, Buffer(Run(IDLE, received)) + data);
            && Run(IDLE, received + data).messages == Run(IDLE, received).messages + r.messages
            && Buffer(Run(IDLE, received + data)) == Buffer(r)
  {
    var m := Run(IDLE, received);
    RunConsistent(received);
    RunBuffer([], m.junk, m.body);
    assert Buffer(m.(messages := [])) == Buffer(m);
    RunConcat(IDLE, Buffer(m), data);
    RunConcat(IDLE, received, data);
    RunForgets(m, data);
  }

  /** The processor's effect on a chunk: the messages it cuts out and the bytes it keeps. */
  function Process(current: string, data: string): (seq<Message>, string) {
    var r := Run(IDLE, current + data);
    (r.messages, Buffer(r))
  }

  function ProcessAll(chunks: seq<string>): (seq<Message>, string) {
    if chunks == [] then ([], [])
    else
      var (before, current) := ProcessAll(Front(chunks));
      var (now, rest) := Process(current, Last(chunks));
      (before + now, rest)
  }

  /** However a stream is chopped into chunks, the messages and the bytes kept are those of one
      call on the whole stream. */
  lemma {:induction false} ChunkInvariance(chunks: seq<string>)
    ensures ProcessAll(chunks) == Process([], Flatten(chunks))
  {
    if chunks == [] {
    } else {
      ChunkInvariance(Front(chunks));
      var before := Flatten(Front(chunks));
      assert [] + before == before && [] + Flatten(chunks) == before + Last(chunks);
      Rescan(before, Last(chunks));
    }
  }
}
