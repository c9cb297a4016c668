/** The methods of src/logger.cpp that change a logger's queue and its sink, one thread at a time;
    LoggerMachine interleaves them. */
module Logger {
  import opened Basics
  import opened Elements
  import M = LoggerMachine

  /** What the n-th call of a sink operation does: it may throw before or after writing. */
  datatype Outcome = Returns | Throws(written: bool)

  class Sink {
    const threshold: Level
    const logging: nat -> Outcome
    const flushing: nat -> Outcome
    var calls: nat
    var log: seq<Element>
    var flushed: nat

    constructor (threshold: Level, logging: nat -> Outcome, flushing: nat -> Outcome)
      ensures this.threshold == threshold && log == [] && flushed == 0
    {
      this.threshold := threshold;
      this.logging := logging;
      this.flushing := flushing;
      calls := 0;
      log := [];
      flushed := 0;
    }

    method Log(e: Element) returns (outcome: Outcome)
      modifies this
      ensures outcome == logging(old(calls)) && calls == old(calls) + 1
      ensures log == old(log) + if outcome == Throws(false) then [] else [e]
      ensures flushed == old(flushed)
    {
      outcome := logging(calls);
      calls := calls + 1;
      if outcome != Throws(false) {
        log := log + [e];
      }
    }

    method Flush() returns (outcome: Outcome)
      modifies this
      ensures outcome == flushing(old(calls)) && calls == old(calls) + 1
      ensures log == old(log)
      ensures flushed == if outcome == Returns then |log| else old(flushed)
    {
      outcome := flushing(calls);
      calls := calls + 1;
      if outcome == Returns {
        flushed := |log|;
      }
    }
  }

  /** The elements of a batch that a sink with this threshold is given. */
  function Passing(threshold: Level, batch: seq<Element>): seq<Element> {
    Filter(Reaches(threshold), batch)
  }

  /** The `n` calls from the `first` on all return. */
  ghost predicate AllReturn(logging: nat -> Outcome, first: nat, n: nat) {
    forall c :: first <= c < first + n ==> logging(c) == Returns
  }

  /** `fault` is what the sink's calls, from the `first` on, make of a batch: the first call that
      throws ends it, and without one nothing does. */
  ghost predicate Explains(sink: Sink, first: nat, batch: seq<Element>, fault: M.Fault) {
    var n := |Passing(sink.threshold, batch)|;
    match fault
    case AtElement(i, written) =>
      && i < |batch| && Reaches(sink.threshold)(batch[i])
      && AllReturn(sink.logging, first, |Passing(sink.threshold, batch[..i])|)
      && sink.logging(first + |Passing(sink.threshold, batch[..i])|) == Throws(written)
    case AtFlush => AllReturn(sink.logging, first, n) && n > 0 && sink.flushing(first + n) != Returns
    case NoFault => AllReturn(sink.logging, first, n) && (n > 0 ==> sink.flushing(first + n) == Returns)
  }

  /** How many calls the sink gets for a batch that ends with this fault. */
  function CallsMade(sink: Sink, batch: seq<Element>, fault: M.Fault): nat {
    var n := |Passing(sink.threshold, batch)|;
    match fault
    case AtElement(i, _) => if i <= |batch| then |Passing(sink.threshold, batch[..i])| + 1 else n
    case _ => if n > 0 then n + 1 else 0
  }

  lemma {:induction false} PassingGrows(threshold: Level, batch: seq<Element>, i: nat, j: nat)
    requires i < j <= |batch| && Reaches(threshold)(batch[i])
    ensures |Passing(threshold, batch[..i])| < |Passing(threshold, batch[..j])|
  {
    FilterNext(Reaches(threshold), batch, j - 1);
    if i == j - 1 {
    } else {
      PassingGrows(threshold, batch, i, j - 1);
    }
  }

  lemma ThrowIsNoReturn(sink: Sink, first: nat, batch: seq<Element>, f: M.Fault, g: M.Fault)
    requires Explains(sink, first, batch, f) && Explains(sink, first, batch, g) && f.AtElement?
    ensures g.AtElement? && f.index <= g.index
  {
    var call := first + |Passing(sink.threshold, batch[..f.index])|;
    assert sink.logging(call) != Returns;
    PassingGrows(sink.threshold, batch, f.index, |batch|);
    assert batch[..|batch|] == batch;
    if g.AtElement? && g.index < f.index {
      PassingGrows(sink.threshold, batch, g.index, f.index);
    }
  }

  /** The sink's calls determine how a batch ends: it ends with a fault if and only if the calls
      explain it. */
  lemma OnlyOneExplanation(sink: Sink, first: nat, batch: seq<Element>, f: M.Fault, g: M.Fault)
    requires Explains(sink, first, batch, f)
    ensures Explains(sink, first, batch, g) <==> g == f
  {
    if Explains(sink, first, batch, g) {
      if f.AtElement? {
        ThrowIsNoReturn(sink, first, batch, f, g);
      }
      if g.AtElement? {
        ThrowIsNoReturn(sink, first, batch, g, f);
      }
    }
  }

  /** What a thread does to the mutex, the condition variable and what the mutex guards. */
  datatype Step = Locks | Inserts(batch: seq<Element>) | SetsDone | Takes | Notifies | Unlocks | Joins

  /** How a round of the worker's loop ends. */
  datatype RoundEnd = Sleeps | Leaves(flushes: bool) | Drained(fault: M.Fault)

  /** The steps of ~Logger(). */
  const HANDSHAKE := [Locks, SetsDone, Unlocks, Notifies, Joins]

  /** Moving elements into the queue one by one. */
  function Moves(batch: seq<Element>): seq<Step> {
    seq(|batch|, i requires 0 <= i < |batch| => Inserts([batch[i]]))
  }

  /** The steps of a push, by copying and by moving. */
  function CopySteps(batch: seq<Element>): seq<Step> {
    [Locks, Inserts(batch), Notifies, Unlocks]
  }

  function MoveSteps(batch: seq<Element>): seq<Step> {
    [Locks] + Moves(batch) + [Notifies, Unlocks]
  }

  class Logger {
    const sink: Sink
    var elements: seq<Element>
    var done: bool
    /** The steps made so far, in order. */
    ghost var trace: seq<Step>

    constructor (sink: Sink)
      ensures this.sink == sink && elements == [] && !done && trace == []
    {
      this.sink := sink;
      elements := [];
      done := false;
      trace := [];
    }

    /** A step on the mutex, the condition variable or the worker's thread. */
    ghost method Synchronise(step: Step)
      modifies `trace
      ensures trace == old(trace) + [step]
    {
      trace := trace + [step];
    }

    method Insert(batch: seq<Element>)
      modifies `elements, `trace
      ensures elements == old(elements) + batch && trace == old(trace) + [Inserts(batch)]
    {
      elements := elements + batch;
      trace := trace + [Inserts(batch)];
    }

    /** push(const std::vector<Element>&): the notification is sent while the mutex is held. */
    method PushCopy(batch: seq<Element>)
      modifies `elements, `trace
      ensures elements == old(elements) + batch
      ensures trace == old(trace) + CopySteps(batch)
    {
      Synchronise(Locks);
      Insert(batch);
      Synchronise(Notifies);
      Synchronise(Unlocks);
    }

    /** push(std::vector<Element>&&): moves the elements one by one, all under the mutex, and
        notifies once. */
    method PushMove(batch: seq<Element>)
      modifies `elements, `trace
      ensures elements == old(elements) + batch
      ensures trace == old(trace) + MoveSteps(batch)
    {
      Synchronise(Locks);
      for i := 0 to |batch|
        invariant elements == old(elements) + batch[..i]
        invariant trace == old(trace) + [Locks] + Moves(batch[..i])
      {
        Insert([batch[i]]);
        assert batch[..i + 1] == batch[..i] + [batch[i]];
        assert Moves(batch[..i + 1]) == Moves(batch[..i]) + [Inserts([batch[i]])];
      }
      assert batch[..|batch|] == batch;
      Synchronise(Notifies);
      Synchronise(Unlocks);
    }

    /** ~Logger(): the notification is sent after the mutex is released. */
    method Destroy()
      modifies `done, `trace
      ensures done && trace == old(trace) + HANDSHAKE
    {
      Synchronise(Locks);
      done := true;
      Synchronise(SetsDone);
      Synchronise(Unlocks);
      Synchronise(Notifies);
      Synchronise(Joins);
    }

    /** The try block of the worker: logs what passes the level and flushes if anything did. A sink
        call that throws abandons the rest of this batch. */
    method Drain(batch: seq<Element>) returns (fault: M.Fault)
      modifies sink
      ensures Explains(sink, old(sink.calls), batch, fault)
      ensures sink.calls == old(sink.calls) + CallsMade(sink, batch, fault)
      ensures sink.log == old(sink.log) + M.Logged(Reaches(sink.threshold), M.Batch(batch, fault))
      ensures fault == M.NoFault && Filter(Reaches(sink.threshold), batch) != [] ==> sink.flushed == |sink.log|
      ensures fault != M.NoFault || Filter(Reaches(sink.threshold), batch) == [] ==> sink.flushed == old(sink.flushed)
    {
      var count := 0;
      for i := 0 to |batch|
        invariant sink.log == old(sink.log) + Filter(Reaches(sink.threshold), batch[..i])
        invariant count == |Filter(Reaches(sink.threshold), batch[..i])|
        invariant AllReturn(sink.logging, old(sink.calls), count) && sink.calls == old(sink.calls) + count
        invariant sink.flushed == old(sink.flushed)
      {
        FilterNext(Reaches(sink.threshold), batch, i);
        if !(sink.threshold <= batch[i].level) {
          continue;
        }
        var outcome := sink.Log(batch[i]);
        if outcome != Returns {
          return M.AtElement(i, outcome.written);
        }
        count := count + 1;
      }
      assert batch[..|batch|] == batch;
      if count > 0 {
        var outcome := sink.Flush();
        if outcome != Returns {
          return M.AtFlush;
        }
      }
      return M.NoFault;
    }

    /** One round of the worker's loop. It sleeps while there is nothing to do; it leaves, after a
        flush under the mutex, if the logger is done, dropping the queue; and otherwise it takes
        the whole queue and drains it with the mutex released. */
    method Round() returns (end: RoundEnd)
      modifies `elements, `trace, sink
      ensures end == Sleeps <==> !old(done) && old(elements) == []
      ensures end.Leaves? <==> old(done)
      ensures !end.Drained? ==> elements == old(elements) && sink.log == old(sink.log)
      ensures end.Leaves? ==> end.flushes == (sink.flushing(old(sink.calls)) == Returns)
      ensures !end.Drained? ==> sink.flushed == if end == Leaves(true) then |sink.log| else old(sink.flushed)
      ensures !end.Drained? ==> trace == old(trace) + [Locks, Unlocks]
      ensures end.Drained? ==> elements == [] && trace == old(trace) + [Locks, Takes, Unlocks]
      ensures end.Drained? ==>
                && Explains(sink, old(sink.calls), old(elements), end.fault)
                && sink.calls == old(sink.calls) + CallsMade(sink, old(elements), end.fault)
                && sink.log == old(sink.log) + M.Logged(Reaches(sink.threshold), M.Batch(old(elements), end.fault))
                && sink.flushed == if end.fault == M.NoFault && Filter(Reaches(sink.threshold), old(elements)) != []
                                   then |sink.log| else old(sink.flushed)
    {
      Synchronise(Locks);
      if !done && elements == [] {
        Synchronise(Unlocks);
        return Sleeps;
      }
      if done {
        var outcome := sink.Flush();
        Synchronise(Unlocks);
        return Leaves(outcome == Returns);
      }
      var batch := elements;
      elements := [];
      Synchronise(Takes);
      Synchronise(Unlocks);
      var fault := Drain(batch);
      return Drained(fault);
    }
  }
}
