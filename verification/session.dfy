/** The Processor of src/session.cpp: a mutable buffer that is searched from its beginning after
    every chunk and after every message. */
module Session {
  import opened Basics
  import opened Elements
  import opened Framing

  class Processor {
    const decode: Decoder
    var current: string
    /** Every byte ever handed to this processor. */
    ghost var received: string

    ghost predicate Valid()
      reads this
    {
      current == Buffer(Run(IDLE, received))
    }

    constructor (decode: Decoder)
      ensures Valid() && received == [] && current == [] && this.decode == decode
    {
      this.decode := decode;
      current := [];
      received := [];
    }

    ghost predicate IsFound(before: string, e: Element, after: string, m: Message) {
      IsMessage(m) && before == RenderOne(m) + after && e == ElementOf(decode, Frame(m))
    }

    /** Either nothing was found because no message is complete, or one message left the buffer. */
    ghost predicate FoundOne(before: string, found: Option<Element>, after: string) {
      match found
      case None => Incomplete(before) && after == before
      case Some(e) => exists m :: IsFound(before, e, after, m)
    }

    /** Cuts the first complete message off the buffer, if there is one. */
    method FindOne() returns (found: Option<Element>)
      modifies this`current
      ensures FoundOne(old(current), found, current)
    {
      var opening := Find(current, START, 0);
      if opening < |current| {
        var closing := Find(current, END, opening + 1);
        if closing < |current| {
          var beyond := closing + 1;
          found := Some(ElementOf(decode, current[opening..beyond]));
          ghost var m := Message(current[..opening], current[opening + 1..closing]);
          assert current[opening..beyond] == Frame(m);
          current := current[beyond..];
          assert IsFound(old(current), found.value, current, m);
          return;
        }
      }
      found := None;
    }

    /** The function-call operator: takes a chunk and returns the elements it completes. */
    method Process(data: string) returns (elements: seq<Element>)
      requires Valid()
      modifies this
      ensures Valid() && received == old(received) + data
      ensures Emitted(decode, received) == Emitted(decode, old(received)) + elements
      ensures var (cut, rest) := Framing.Process(old(current), data);
              elements == ElementsOf(decode, cut) && current == rest
    {
      current := current + data;
      elements := [];
      ghost var cut: seq<Message> := [];
      ghost var before := current;
      var e := FindOne();
      while e.Some?
        invariant forall m :: m in cut ==> IsMessage(m)
        invariant elements == ElementsOf(decode, cut)
        invariant old(current) + data == Render(cut) + before
        invariant FoundOne(before, e, current)
        invariant received == old(received)
        decreases |before|
      {
        ghost var m :| IsFound(before, e.value, current, m);
        elements := elements + [e.value];
        assert Front(cut + [m]) == cut;
        assert Render(cut + [m]) + current == Render(cut) + (RenderOne(m) + current);
        cut := cut + [m];
        before := current;
        e := FindOne();
      }
      RenderedMessagesComeBack(cut, current);
      Rescan(received, data);
      ElementsOfConcat(decode, Run(IDLE, received).messages, cut);
      received := received + data;
    }
  }
}
