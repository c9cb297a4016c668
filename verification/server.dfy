/** src/server.cpp and the handler of src/session.cpp. */
module Server {
  import opened Basics
  import opened Elements
  import opened Framing
  import Session
  import Logger

  /** A thread handle: std::thread is a movable value that is joinable or not. */
  datatype Handle = Joinable(id: nat) | NotJoinable

  /** How starting the n-th thread goes. */
  datatype Start = Starts | CreationThrows | PushBackThrows

  datatype Result = Started | Threw(at: nat)

  /** What becomes of the server's threads, and of its loggers with their workers. */
  datatype Event = ThreadJoined(id: nat) | LoggerDestroyed(index: nat)

  function Joins(ids: seq<nat>): seq<Event> {
    seq(|ids|, i requires 0 <= i < |ids| => ThreadJoined(ids[i]))
  }

  function Destructions(n: nat): seq<Event> {
    seq(n, i requires 0 <= i < n => LoggerDestroyed(i))
  }

  function Ids(n: nat): seq<nat> {
    seq(n, i requires 0 <= i < n => i)
  }

  /** The ids of the joinable handles, in order. */
  function Live(threads: seq<Handle>): seq<nat> {
    if threads == [] then []
    else Live(Front(threads)) + if Last(threads).Joinable? then [Last(threads).id] else []
  }

  /** What a fan-out to this many loggers does to the mutex and the condition variable of each. */
  function PushSteps(loggers: nat, batch: seq<Element>): seq<Logger.Step> {
    if loggers == 1 then Logger.MoveSteps(batch) else Logger.CopySteps(batch)
  }

  lemma {:induction false} LiveNumbered(threads: seq<Handle>)
    requires forall i :: 0 <= i < |threads| ==> threads[i] == Joinable(i)
    ensures Live(threads) == Ids(|threads|)
  {
    if threads == [] {
    } else {
      LiveNumbered(Front(threads));
    }
  }

  lemma {:induction false} NoneLive(threads: seq<Handle>)
    ensures Live(threads) == [] <==> forall i :: 0 <= i < |threads| ==> threads[i] == NotJoinable
  {
    if threads == [] {
    } else {
      NoneLive(Front(threads));
      assert forall i :: 0 <= i < |threads| - 1 ==> threads[i] == Front(threads)[i];
    }
  }

  lemma JoinsNext(ids: seq<nat>, id: nat)
    ensures Joins(ids + [id]) == Joins(ids) + [ThreadJoined(id)]
  {
  }

  class Server {
    const loggers: seq<Logger.Logger>
    var stopped: bool
    var threads: seq<Handle>
    /** All threads ever joined and all loggers destroyed, in that order. */
    ghost var trace: seq<Event>
    /** For each acceptor, the number of accept operations in flight. */
    var outstanding: seq<nat>

    ghost predicate Valid() {
      loggers != [] && forall i, j :: 0 <= i < j < |loggers| ==> loggers[i] != loggers[j]
    }

    constructor (loggers: seq<Logger.Logger>, acceptors: nat)
      ensures this.loggers == loggers && !stopped && threads == [] && trace == []
      ensures outstanding == seq(acceptors, i => 0)
    {
      this.loggers := loggers;
      stopped := false;
      threads := [];
      trace := [];
      outstanding := seq(acceptors, i => 0);
    }

    /** shutdown(): stops the I/O context and joins what is joinable, each thread once. */
    method Shutdown()
      modifies `stopped, `threads, `trace
      ensures stopped && |threads| == |old(threads)| && Live(threads) == []
      ensures trace == old(trace) + Joins(Live(old(threads)))
    {
      stopped := true;
      for i := 0 to |threads|
        invariant stopped && |threads| == |old(threads)| && threads[i..] == old(threads)[i..]
        invariant forall j :: 0 <= j < i ==> threads[j] == NotJoinable
        invariant trace == old(trace) + Joins(Live(old(threads)[..i]))
      {
        assert threads[i] == old(threads)[i] by { assert threads[i..][0] == old(threads)[i..][0]; }
        assert Front(old(threads)[..i + 1]) == old(threads)[..i];
        assert forall j :: i + 1 <= j < |threads| ==>
                 threads[j] == threads[i..][j - i] && old(threads)[j] == old(threads)[i..][j - i];
        if threads[i].Joinable? {
          JoinsNext(Live(old(threads)[..i]), threads[i].id);
          trace := trace + [ThreadJoined(threads[i].id)];
          threads := threads[i := NotJoinable];
        }
      }
      assert old(threads)[..|threads|] == old(threads);
      NoneLive(threads);
    }

    /** The thread-start loop of the constructor, thread `i` getting id i. Whatever fails first,
        every thread started so far has been joined, once, when the exception leaves. */
    method StartThreads(n: nat, start: nat -> Start) returns (result: Result)
      requires threads == [] && !stopped
      modifies `stopped, `threads, `trace
      ensures result == Started <==> forall i :: 0 <= i < n ==> start(i) == Starts
      ensures result == Started ==>
                !stopped && |threads| == n && Live(threads) == Ids(n) && trace == old(trace)
      ensures result.Threw? ==>
                && result.at < n && start(result.at) != Starts
                && (forall i :: 0 <= i < result.at ==> start(i) == Starts)
                && stopped && Live(threads) == []
                && trace == old(trace)
                            + Joins(Ids(result.at + if start(result.at) == PushBackThrows then 1 else 0))
    {
      while |threads| < n
        invariant |threads| <= n && !stopped && trace == old(trace)
        invariant forall i :: 0 <= i < |threads| ==> threads[i] == Joinable(i) && start(i) == Starts
      {
        var id := |threads|;
        LiveNumbered(threads);
        if start(id) == CreationThrows {
          Shutdown();
          return Threw(id);
        }
        var thread := Joinable(id);
        if start(id) == PushBackThrows {
          Shutdown();
          trace := trace + [ThreadJoined(thread.id)];
          thread := NotJoinable;
          JoinsNext(Ids(id), id);
          assert Ids(id) + [id] == Ids(id + 1);
          return Threw(id);
        }
        threads := threads + [thread];
      }
      LiveNumbered(threads);
      return Started;
    }

    /** ~Server(): the loggers are destroyed one after the other, each with its own handshake, after
        the last I/O thread has been joined. */
    method Destroy()
      requires Valid()
      modifies `stopped, `threads, `trace, loggers`done, loggers`trace
      ensures stopped && Live(threads) == []
      ensures trace == old(trace) + Joins(Live(old(threads))) + Destructions(|loggers|)
      ensures forall i :: 0 <= i < |loggers| ==>
                && loggers[i].done
                && loggers[i].trace == old(loggers[i].trace) + Logger.HANDSHAKE
    {
      Shutdown();
      for i := 0 to |loggers|
        invariant stopped && Live(threads) == []
        invariant trace == old(trace) + Joins(Live(old(threads))) + Destructions(i)
        invariant forall j :: 0 <= j < |loggers| ==>
                    loggers[j].trace == old(loggers[j].trace) + if j < i then Logger.HANDSHAKE else []
        invariant forall j :: 0 <= j < i ==> loggers[j].done
      {
        loggers[i].Destroy();
        trace := trace + [LoggerDestroyed(i)];
        assert Destructions(i + 1) == Destructions(i) + [LoggerDestroyed(i)];
      }
    }

    /** accept(): arms every acceptor, whichever of them has just fired. */
    method Accept()
      modifies `outstanding
      ensures |outstanding| == |old(outstanding)|
      ensures forall i :: 0 <= i < |outstanding| ==> outstanding[i] == old(outstanding)[i] + 1
    {
      for i := 0 to |outstanding|
        invariant |outstanding| == |old(outstanding)|
        invariant forall j :: 0 <= j < |outstanding| ==> outstanding[j] == old(outstanding)[j] + if j < i then 1 else 0
      {
        outstanding := outstanding[i := outstanding[i] + 1];
      }
    }

    /** The callback given to sessions: hands a batch to every logger, in order. */
    method FanOut(batch: seq<Element>)
      requires Valid()
      modifies loggers`elements, loggers`trace
      ensures forall i :: 0 <= i < |loggers| ==>
                && loggers[i].elements == old(loggers[i].elements) + batch
                && loggers[i].trace == old(loggers[i].trace) + PushSteps(|loggers|, batch)
    {
      if |loggers| == 1 {
        loggers[0].PushMove(batch);
      } else {
        for i := 0 to |loggers|
          invariant forall j :: 0 <= j < |loggers| ==>
                      && loggers[j].elements == old(loggers[j].elements) + (if j < i then batch else [])
                      && loggers[j].trace
                         == old(loggers[j].trace) + if j < i then PushSteps(|loggers|, batch) else []
        {
          loggers[i].PushCopy(batch);
        }
      }
    }
  }

  /** What a queue has grown by. */
  function Added(before: seq<Element>, after: seq<Element>): seq<Element>
    requires before <= after
  {
    after[|before|..]
  }

  /** A chunk that completes no element is not pushed at all. */
  function PushedSteps(loggers: nat, batch: seq<Element>): seq<Logger.Step> {
    if batch == [] then [] else PushSteps(loggers, batch)
  }

  /** A client connection. */
  class Connection {
    const server: Server
    const processor: Session.Processor
    /** Whether a read is in flight. */
    var reading: bool

    ghost predicate Valid()
      reads this, processor
    {
      server.Valid() && processor.Valid()
    }

    constructor (server: Server, processor: Session.Processor)
      ensures this.server == server && this.processor == processor && reading
    {
      this.server := server;
      this.processor := processor;
      reading := true;
    }

    /** The completion handler of Session::read: frames the chunk, fans out what it completes, and
        only then issues the next read. An error ends the session. */
    method OnRead(error: bool, data: string)
      requires Valid() && reading
      modifies this, processor, server.loggers`elements, server.loggers`trace
      ensures Valid() && reading == !error
      ensures error ==> processor.received == old(processor.received)
                        && (forall i :: 0 <= i < |server.loggers| ==>
                              && server.loggers[i].elements == old(server.loggers[i].elements)
                              && server.loggers[i].trace == old(server.loggers[i].trace))
      ensures !error ==>
                && processor.received == old(processor.received) + data
                && forall i :: 0 <= i < |server.loggers| ==>
                     && old(server.loggers[i].elements) <= server.loggers[i].elements
                     && Emitted(processor.decode, processor.received)
                        == Emitted(processor.decode, old(processor.received))
                           + Added(old(server.loggers[i].elements), server.loggers[i].elements)
                     && server.loggers[i].trace
                        == old(server.loggers[i].trace)
                           + PushedSteps(|server.loggers|,
                                         Added(old(server.loggers[i].elements), server.loggers[i].elements))
    {
      reading := false;
      if !error {
        var elements := processor.Process(data);
        if elements != [] {
          server.FanOut(elements);
        }
        reading := true;
      }
    }
  }
}
