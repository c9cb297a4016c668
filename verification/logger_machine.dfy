/** The producer/consumer protocol of src/logger.cpp as a step system. One worker thread drains
    a queue that any number of pushing threads fill; a destructor asks the worker to finish.
    Every statement that touches the mutex, the condition variable, the queue or the sink is a
    step of its own, and any interleaving of enabled steps is a run. */
module LoggerMachine {
  import opened Basics

  datatype Owner = Free | ByWorker | ByPusher(id: nat) | ByDestructor

  datatype WorkerPc =
    | Locking   // top of the loop, about to lock the mutex
    | Testing   // owns the mutex, evaluates the wait predicate
    | Blocked   // asleep on the condition variable, mutex released
    | Waking    // notified or spuriously awake, must lock the mutex again
    | Deciding  // owns the mutex, the wait predicate was true
    | Draining  // mutex released, going through the batch it took
    | Exited
    | Crashed   // the final flush threw: the exception leaves the thread function

  datatype PusherPc<T> = Wanting(batch: seq<T>) | Locked(batch: seq<T>) | Inserted | Notified

  datatype DestructorPc = Alive | WantsLock | HoldsLock | DoneSet | OwesNotify | Joining | Joined

  /** How a batch ended: a sink call that throws may or may not have written its element. */
  datatype Fault = NoFault | AtElement(index: nat, written: bool) | AtFlush

  datatype Batch<T> = Batch(elements: seq<T>, fault: Fault)

  /** `flushed` is the length of the log when the last flush succeeded. */
  datatype Sink<T> = Sink(log: seq<T>, flushed: nat)

  /** `pushed` is everything ever inserted and `history` the batches finished so far. */
  datatype State<T> = State(
    queue: seq<T>, done: bool, mutex: Owner, worker: WorkerPc, destructor: DestructorPc,
    pushers: map<nat, PusherPc<T>>, batch: seq<T>, pos: nat, count: nat, sink: Sink<T>,
    pushed: seq<T>, history: seq<Batch<T>>)

  datatype Action<T> =
    | PushStart(id: nat, batch: seq<T>)
    | PushLock(id: nat)
    | PushInsert(id: nat)
    | PushNotify(id: nat)
    | PushUnlock(id: nat)
    | WorkerLock
    | WorkerTest
    | WorkerSpuriousWakeup
    | WorkerRelock
    | WorkerExit(flushes: bool)
    | WorkerSwap
    | WorkerSkip
    | WorkerLog
    | WorkerLogThrows(written: bool)
    | WorkerEndBatch
    | WorkerFlush(flushes: bool)
    | DestructorStart
    | DestructorLock
    | DestructorSetDone
    | DestructorUnlock
    | DestructorNotify
    | DestructorJoin
  {
    predicate IsWorker() {
      WorkerLock? || WorkerTest? || WorkerSpuriousWakeup? || WorkerRelock? || WorkerExit? || WorkerSwap?
      || WorkerSkip? || WorkerLog? || WorkerLogThrows? || WorkerEndBatch? || WorkerFlush?
    }

    predicate IsPush() {
      PushStart? || PushLock? || PushInsert? || PushNotify? || PushUnlock?
    }

    predicate IsDestructor() {
      !IsWorker() && !IsPush()
    }
  }

  function Init<T>(): State<T> {
    State([], false, Free, Locking, Alive, map[], [], 0, 0, Sink([], 0), [], [])
  }

  predicate Enabled<T(==)>(passes: T -> bool, s: State<T>, a: Action<T>) {
    s.worker != Crashed &&
    match a
    case PushStart(id, batch) => id !in s.pushers
    case PushLock(id) => id in s.pushers && s.pushers[id].Wanting? && s.mutex == Free
    case PushInsert(id) => id in s.pushers && s.pushers[id].Locked?
    case PushNotify(id) => id in s.pushers && s.pushers[id].Inserted?
    case PushUnlock(id) => id in s.pushers && s.pushers[id].Notified?
    case WorkerLock => s.worker == Locking && s.mutex == Free
    case WorkerTest => s.worker == Testing
    case WorkerSpuriousWakeup => s.worker == Blocked
    case WorkerRelock => s.worker == Waking && s.mutex == Free
    case WorkerExit(_) => s.worker == Deciding && s.done
    case WorkerSwap => s.worker == Deciding && !s.done
    case WorkerSkip => s.worker == Draining && s.pos < |s.batch| && !passes(s.batch[s.pos])
    case WorkerLog => s.worker == Draining && s.pos < |s.batch| && passes(s.batch[s.pos])
    case WorkerLogThrows(_) => s.worker == Draining && s.pos < |s.batch| && passes(s.batch[s.pos])
    case WorkerEndBatch => s.worker == Draining && s.pos == |s.batch| && s.count == 0
    case WorkerFlush(_) => s.worker == Draining && s.pos == |s.batch| && s.count > 0
    case DestructorStart => s.destructor == Alive
    case DestructorLock => s.destructor == WantsLock && s.mutex == Free
    case DestructorSetDone => s.destructor == HoldsLock
    case DestructorUnlock => s.destructor == DoneSet
    case DestructorNotify => s.destructor == OwesNotify
    case DestructorJoin => s.destructor == Joining && s.worker == Exited
  }

  /** notify_one: only the worker ever waits on the condition variable. */
  function Notify(worker: WorkerPc): WorkerPc {
    if worker == Blocked then Waking else worker
  }

  /** The worker is back at the top of its loop; the batch it had is history. */
  function Retire<T>(s: State<T>, fault: Fault): State<T> {
    s.(worker := Locking, batch := [], pos := 0, count := 0,
       history := s.history + [Batch(s.batch, fault)])
  }

  function Apply<T(==)>(passes: T -> bool, s: State<T>, a: Action<T>): State<T>
    requires Enabled(passes, s, a)
  {
    match a
    case PushStart(id, batch) => s.(pushers := s.pushers[id := Wanting(batch)])
    case PushLock(id) => s.(pushers := s.pushers[id := Locked(s.pushers[id].batch)], mutex := ByPusher(id))
    case PushInsert(id) =>
      s.(pushers := s.pushers[id := Inserted],
         queue := s.queue + s.pushers[id].batch, pushed := s.pushed + s.pushers[id].batch)
    case PushNotify(id) => s.(pushers := s.pushers[id := Notified], worker := Notify(s.worker))
    case PushUnlock(id) => s.(pushers := s.pushers - {id}, mutex := Free)
    case WorkerLock => s.(worker := Testing, mutex := ByWorker)
    case WorkerTest =>
      if s.done || s.queue != [] then s.(worker := Deciding) else s.(worker := Blocked, mutex := Free)
    case WorkerSpuriousWakeup => s.(worker := Waking)
    case WorkerRelock => s.(worker := Testing, mutex := ByWorker)
    case WorkerExit(flushes) =>
      if flushes then s.(worker := Exited, mutex := Free, sink := s.sink.(flushed := |s.sink.log|))
      else s.(worker := Crashed, mutex := Free)
    case WorkerSwap => s.(worker := Draining, mutex := Free, batch := s.queue, queue := [], pos := 0, count := 0)
    case WorkerSkip => s.(pos := s.pos + 1)
    case WorkerLog =>
      s.(pos := s.pos + 1, count := s.count + 1, sink := s.sink.(log := s.sink.log + [s.batch[s.pos]]))
    case WorkerLogThrows(written) =>
      var log := s.sink.log + if written then [s.batch[s.pos]] else [];
      Retire(s, AtElement(s.pos, written)).(sink := s.sink.(log := log))
    case WorkerEndBatch => Retire(s, NoFault)
    case WorkerFlush(flushes) =>
      if flushes then Retire(s, NoFault).(sink := s.sink.(flushed := |s.sink.log|)) else Retire(s, AtFlush)
    case DestructorStart => s.(destructor := WantsLock)
    case DestructorLock => s.(destructor := HoldsLock, mutex := ByDestructor)
    case DestructorSetDone => s.(destructor := DoneSet, done := true)
    case DestructorUnlock => s.(destructor := OwesNotify, mutex := Free)
    case DestructorNotify => s.(destructor := Joining, worker := Notify(s.worker))
    case DestructorJoin => s.(destructor := Joined)
  }

  // ----- Runs -----

  ghost predicate Legal<T(!new)>(passes: T -> bool, s: State<T>, run: seq<Action<T>>)
    decreases |run|, 0
  {
    run == [] || (Legal(passes, s, Front(run)) && Enabled(passes, After(passes, s, Front(run)), Last(run)))
  }

  ghost function After<T(!new)>(passes: T -> bool, s: State<T>, run: seq<Action<T>>): State<T>
    requires Legal(passes, s, run)
    decreases |run|, 1
  {
    if run == [] then s else Apply(passes, After(passes, s, Front(run)), Last(run))
  }

  // ----- What the sink holds -----

  /** The part of a finished batch that reached the sink. */
  function Logged<T>(passes: T -> bool, b: Batch<T>): seq<T> {
    match b.fault
    case AtElement(i, written) =>
      if i < |b.elements| then Filter(passes, b.elements[..i]) + if written then [b.elements[i]] else []
      else Filter(passes, b.elements)
    case _ => Filter(passes, b.elements)
  }

  function LoggedAll<T>(passes: T -> bool, history: seq<Batch<T>>): seq<T> {
    if history == [] then [] else LoggedAll(passes, Front(history)) + Logged(passes, Last(history))
  }

  function Taken<T>(history: seq<Batch<T>>): seq<T> {
    if history == [] then [] else Taken(Front(history)) + Last(history).elements
  }

  /** The elements the worker has dealt with: logged, filtered out, or lost to a fault. */
  function Processed<T>(s: State<T>): seq<T>
    requires s.pos <= |s.batch|
  {
    Taken(s.history) + s.batch[..s.pos]
  }

  /** How many of the logged elements no flush has covered: a batch that logs something and ends
      without a fault flushes everything before it as well. */
  function Unflushed<T>(passes: T -> bool, history: seq<Batch<T>>): nat {
    if history == [] then 0
    else
      var logged := |Logged(passes, Last(history))|;
      if Last(history).fault == NoFault && logged > 0 then 0
      else Unflushed(passes, Front(history)) + logged
  }

  ghost predicate FaultFree<T>(history: seq<Batch<T>>) {
    forall b :: b in history ==> b.fault == NoFault
  }

  // ----- The invariant -----

  /** Exactly the thread that is between locking and unlocking owns the mutex. */
  ghost predicate Ownership<T>(s: State<T>) {
    && (s.mutex == ByWorker <==> s.worker in {Testing, Deciding})
    && (s.mutex == ByDestructor <==> s.destructor in {HoldsLock, DoneSet})
    && (forall id :: id in s.pushers && !s.pushers[id].Wanting? ==> s.mutex == ByPusher(id))
    && (s.mutex.ByPusher? ==> s.mutex.id in s.pushers && !s.pushers[s.mutex.id].Wanting?)
  }

  /** Nothing pushed is lost or duplicated on the way from the queue to the worker. */
  ghost predicate Conserved<T>(s: State<T>) {
    && s.pushed == Taken(s.history) + s.batch + s.queue
    && s.pos <= |s.batch|
    && (s.worker != Draining ==> s.batch == [] && s.count == 0)
  }

  /** A sleeping worker has nothing to do, or someone still owes it a notification. */
  ghost predicate NoLostWakeup<T>(s: State<T>) {
    s.worker == Blocked ==>
      || (s.queue == [] && !s.done)
      || (exists id :: id in s.pushers && s.pushers[id].Inserted?)
      || s.destructor in {DoneSet, OwesNotify}
  }

  ghost predicate Shutdown<T>(s: State<T>) {
    && (s.done <==> s.destructor in {DoneSet, OwesNotify, Joining, Joined})
    && (s.worker in {Exited, Crashed} ==> s.done)
    && (s.destructor in {Joining, Joined} ==> s.worker != Blocked)
    && (s.destructor == Joined ==> s.worker == Exited)
  }

  /** A worker past its wait has been told to finish or has elements to take. */
  ghost predicate HasReason<T>(s: State<T>) {
    s.worker == Deciding ==> s.done || s.queue != []
  }

  /** The log is what the finished batches and the part of the current one left there. */
  ghost predicate Written<T>(passes: T -> bool, s: State<T>)
    requires s.pos <= |s.batch|
  {
    && s.sink.log == LoggedAll(passes, s.history) + Filter(passes, s.batch[..s.pos])
    && s.count == |Filter(passes, s.batch[..s.pos])|
  }

  /** A sink call that threw was a call for an element of the batch that passes the level. */
  ghost predicate FaultsAreReal<T>(passes: T -> bool, history: seq<Batch<T>>) {
    forall b :: b in history && b.fault.AtElement? ==>
                  b.fault.index < |b.elements| && passes(b.elements[b.fault.index])
  }

  /** The flush mark lags behind the log by the elements of the current batch and by those that
      aborted batches left unflushed; the flush at the worker's exit covers everything. */
  ghost predicate Flushed<T>(passes: T -> bool, s: State<T>) {
    s.sink.flushed + (if s.worker == Exited then 0 else Unflushed(passes, s.history) + s.count)
      == |s.sink.log|
  }

  ghost predicate Inv<T>(passes: T -> bool, s: State<T>) {
    Ownership(s) && Conserved(s) && NoLostWakeup(s) && Shutdown(s) && HasReason(s) && Written(passes, s)
    && FaultsAreReal(passes, s.history) && Flushed(passes, s)
  }

  lemma OwnershipKept<T(!new)>(passes: T -> bool, s: State<T>, a: Action<T>)
    requires Ownership(s) && Enabled(passes, s, a)
    ensures Ownership(Apply(passes, s, a))
  {
    var s' := Apply(passes, s, a);
    if a.IsPush() {
      forall id | id in s'.pushers && !s'.pushers[id].Wanting?
        ensures s'.mutex == ByPusher(id)
      {
        assert id != a.id ==> id in s.pushers && s'.pushers[id] == s.pushers[id];
      }
    } else {
      assert s'.pushers == s.pushers;
    }
  }

  lemma NoLostWakeupKept<T(!new)>(passes: T -> bool, s: State<T>, a: Action<T>)
    requires Ownership(s) && NoLostWakeup(s) && Shutdown(s) && Enabled(passes, s, a)
    ensures NoLostWakeup(Apply(passes, s, a))
  {
    var s' := Apply(passes, s, a);
    if a.PushInsert? {
      assert a.id in s'.pushers && s'.pushers[a.id].Inserted?;
    } else if exists id :: id in s.pushers && s.pushers[id].Inserted? {
      var id :| id in s.pushers && s.pushers[id].Inserted?;
      assert s'.worker == Blocked ==> id in s'.pushers && s'.pushers[id].Inserted?;
    }
  }

  predicate IsDrainStep<T>(a: Action<T>) {
    a.WorkerSkip? || a.WorkerLog? || EndsBatch(a)
  }

  predicate EndsBatch<T>(a: Action<T>) {
    a.WorkerLogThrows? || a.WorkerEndBatch? || a.WorkerFlush?
  }

  /** Finishing the current batch moves what it logged into the history. */
  lemma RetireLogs<T>(passes: T -> bool, history: seq<Batch<T>>, b: Batch<T>)
    ensures LoggedAll(passes, history + [b]) == LoggedAll(passes, history) + Logged(passes, b)
    ensures Taken(history + [b]) == Taken(history) + b.elements
    ensures b.fault == NoFault && Logged(passes, b) != [] ==> Unflushed(passes, history + [b]) == 0
    ensures b.fault != NoFault || Logged(passes, b) == [] ==>
              Unflushed(passes, history + [b]) == Unflushed(passes, history) + |Logged(passes, b)|
  {
    assert Front(history + [b]) == history;
  }

  /** The effect of a step on the elements between the pushers and the worker. */
  ghost predicate QueueMoves<T(!new)>(s: State<T>, s': State<T>, a: Action<T>, added: seq<T>) {
    && s'.pushed == s.pushed + added && (!a.PushInsert? ==> added == [])
    && (s'.worker == Draining <==> (s.worker == Draining && !EndsBatch(a)) || a.WorkerSwap?)
    && if a.WorkerSwap? then
         s.worker == Deciding && s'.batch == s.queue && s'.queue == [] && s'.history == s.history
         && s'.pos == 0 && s'.count == 0
       else if EndsBatch(a) then
         s'.queue == s.queue && s'.batch == [] && s'.pos == 0 && s'.count == 0
         && exists b :: s'.history == s.history + [b] && b.elements == s.batch
       else
         s'.queue == s.queue + added && s'.batch == s.batch && s'.history == s.history
         && if IsDrainStep(a) then s'.pos == s.pos + 1 <= |s.batch| && s.worker == Draining
            else s'.pos == s.pos && s'.count == s.count
  }

  lemma QueueStep<T(!new)>(passes: T -> bool, s: State<T>, a: Action<T>)
    requires Enabled(passes, s, a)
    ensures QueueMoves(s, Apply(passes, s, a), a, if a.PushInsert? then s.pushers[a.id].batch else [])
  {
    var s' := Apply(passes, s, a);
    if EndsBatch(a) {
      assert s'.history == s.history + [Last(s'.history)];
    }
  }

  /** The three ways in which elements move between pushers and worker. */
  lemma Moved<T>(taken: seq<T>, batch: seq<T>, queue: seq<T>, added: seq<T>)
    ensures (taken + batch + queue) + added == taken + batch + (queue + added)
    ensures (taken + batch + queue) + [] == (taken + batch) + [] + queue
    ensures (taken + [] + queue) + [] == taken + queue + []
  {
  }

  lemma ConservedBy<T(!new)>(passes: T -> bool, s: State<T>, s': State<T>, a: Action<T>, added: seq<T>)
    requires Conserved(s) && QueueMoves(s, s', a, added)
    ensures Conserved(s')
  {
    var taken := Taken(s.history);
    Moved(taken, s.batch, s.queue, added);
    if EndsBatch(a) {
      var b :| s'.history == s.history + [b] && b.elements == s.batch;
      RetireLogs(passes, s.history, b);
      assert s'.pushed == s.pushed + [] == (taken + s.batch) + [] + s.queue;
    } else if a.WorkerSwap? {
      assert s'.pushed == s.pushed + [] == taken + s.queue + [];
    } else {
      assert s'.pushed == s.pushed + added == taken + s.batch + (s.queue + added);
    }
  }

  lemma ConservedKept<T(!new)>(passes: T -> bool, s: State<T>, a: Action<T>)
    requires Conserved(s) && Enabled(passes, s, a)
    ensures Conserved(Apply(passes, s, a))
  {
    QueueStep(passes, s, a);
    ConservedBy(passes, s, Apply(passes, s, a), a, if a.PushInsert? then s.pushers[a.id].batch else []);
  }

  lemma ShutdownKept<T(!new)>(passes: T -> bool, s: State<T>, a: Action<T>)
    requires Ownership(s) && Shutdown(s) && Enabled(passes, s, a)
    ensures Shutdown(Apply(passes, s, a))
  {
  }

  lemma HasReasonKept<T(!new)>(passes: T -> bool, s: State<T>, a: Action<T>)
    requires HasReason(s) && Enabled(passes, s, a)
    ensures HasReason(Apply(passes, s, a))
  {
  }

  /** What the batch that a step ends has logged. */
  lemma LastBatch<T(!new)>(passes: T -> bool, s: State<T>, a: Action<T>)
    requires Conserved(s) && Enabled(passes, s, a) && EndsBatch(a)
    ensures var s' := Apply(passes, s, a);
            var extra := if a == WorkerLogThrows(true) then [s.batch[s.pos]] else [];
            && s'.history == s.history + [Last(s'.history)]
            && Last(s'.history).elements == s.batch
            && Logged(passes, Last(s'.history)) == Filter(passes, s.batch[..s.pos]) + extra
            && s'.batch == [] && s'.pos == 0 && s'.count == 0 && s'.worker == Locking
            && s'.sink.log == s.sink.log + extra
            && (Last(s'.history).fault == NoFault && s.count > 0 ==> s'.sink.flushed == |s.sink.log|)
            && (Last(s'.history).fault != NoFault || s.count == 0 ==> s'.sink.flushed == s.sink.flushed)
            && (Last(s'.history).fault == NoFault ==> extra == [])
  {
    if !a.WorkerLogThrows? {
      assert s.batch[..s.pos] == s.batch;
    }
  }

  lemma FaultsAreRealKept<T(!new)>(passes: T -> bool, s: State<T>, a: Action<T>)
    requires FaultsAreReal(passes, s.history) && Enabled(passes, s, a)
    ensures FaultsAreReal(passes, Apply(passes, s, a).history)
  {
  }

  /** Outside the steps of the drain loop nothing that concerns the sink changes. */
  lemma OtherStepsLeaveSink<T(!new)>(passes: T -> bool, s: State<T>, a: Action<T>)
    requires Conserved(s) && Enabled(passes, s, a) && !IsDrainStep(a)
    ensures var s' := Apply(passes, s, a);
            && s'.history == s.history && s'.sink.log == s.sink.log && s'.count == s.count
            && s'.batch[..s'.pos] == s.batch[..s.pos]
            && (!a.WorkerExit? ==> s'.sink == s.sink && (s'.worker == Exited <==> s.worker == Exited))
  {
  }

  lemma AdvanceLogs<T(!new)>(passes: T -> bool, s: State<T>, a: Action<T>)
    requires Conserved(s) && Enabled(passes, s, a) && (a.WorkerSkip? || a.WorkerLog?)
    ensures var s' := Apply(passes, s, a);
            Filter(passes, s'.batch[..s'.pos])
              == Filter(passes, s.batch[..s.pos]) + if a.WorkerLog? then [s.batch[s.pos]] else []
  {
    FilterNext(passes, s.batch, s.pos);
  }

  lemma RetiredIsWritten<T>(passes: T -> bool, s: State<T>, s': State<T>, b: Batch<T>, extra: seq<T>)
    requires s.pos <= |s.batch| && Written(passes, s)
    requires s'.history == s.history + [b] && Logged(passes, b) == Filter(passes, s.batch[..s.pos]) + extra
    requires s'.batch == [] && s'.pos == 0 && s'.count == 0 && s'.sink.log == s.sink.log + extra
    ensures Written(passes, s')
  {
    RetireLogs(passes, s.history, b);
    assert s'.batch[..s'.pos] == [];
    var before, now := LoggedAll(passes, s.history), Filter(passes, s.batch[..s.pos]);
    assert s'.sink.log == (before + now) + extra == before + (now + extra);
    assert s'.sink.log == LoggedAll(passes, s'.history) + [];
  }

  lemma WrittenKept<T(!new)>(passes: T -> bool, s: State<T>, a: Action<T>)
    requires Conserved(s) && Written(passes, s) && Enabled(passes, s, a)
    ensures Conserved(Apply(passes, s, a)) && Written(passes, Apply(passes, s, a))
  {
    ConservedKept(passes, s, a);
    if EndsBatch(a) {
      var s' := Apply(passes, s, a);
      LastBatch(passes, s, a);
      RetiredIsWritten(passes, s, s', Last(s'.history), if a == WorkerLogThrows(true) then [s.batch[s.pos]] else []);
    } else if IsDrainStep(a) {
      AdvanceLogs(passes, s, a);
    } else {
      OtherStepsLeaveSink(passes, s, a);
    }
  }

  lemma FlushedKept<T(!new)>(passes: T -> bool, s: State<T>, a: Action<T>)
    requires Conserved(s) && Shutdown(s) && Written(passes, s) && Flushed(passes, s) && Enabled(passes, s, a)
    ensures Flushed(passes, Apply(passes, s, a))
  {
    if EndsBatch(a) {
      LastBatch(passes, s, a);
      RetireLogs(passes, s.history, Last(Apply(passes, s, a).history));
    } else if !IsDrainStep(a) {
      OtherStepsLeaveSink(passes, s, a);
    }
  }

  lemma InvKept<T(!new)>(passes: T -> bool, s: State<T>, a: Action<T>)
    requires Inv(passes, s) && Enabled(passes, s, a)
    ensures Inv(passes, Apply(passes, s, a))
  {
    OwnershipKept(passes, s, a);
    NoLostWakeupKept(passes, s, a);
    ShutdownKept(passes, s, a);
    HasReasonKept(passes, s, a);
    WrittenKept(passes, s, a);
    FaultsAreRealKept(passes, s, a);
    FlushedKept(passes, s, a);
  }

  /** Every reachable state satisfies the invariant, whatever the interleaving. */
  lemma {:induction false} Safety<T(!new)>(passes: T -> bool, run: seq<Action<T>>)
    requires Legal(passes, Init(), run)
    ensures Inv(passes, After(passes, Init(), run))
  {
    if run == [] {
    } else {
      Safety(passes, Front(run));
      InvKept(passes, After(passes, Init(), Front(run)), Last(run));
    }
  }

  /** The worker and the destructor leave the pushers and what they pushed alone; a push step only
      moves its own pusher, and only inserting changes what was pushed. */
  lemma PushersMoveAlone<T(!new)>(passes: T -> bool, s: State<T>, a: Action<T>)
    requires Enabled(passes, s, a)
    ensures var s' := Apply(passes, s, a);
            && (!a.IsPush() ==> s'.pushers == s.pushers && s'.pushed == s.pushed)
            && (!a.IsDestructor() ==> s'.destructor == s.destructor)
            && (a.IsPush() ==> forall id :: id != a.id ==> (id in s'.pushers <==> id in s.pushers))
            && (a.IsPush() ==> forall id :: id != a.id && id in s.pushers ==> s'.pushers[id] == s.pushers[id])
            && s'.pushed == s.pushed + if a.PushInsert? then s.pushers[a.id].batch else []
  {
  }

  // ----- What the invariant means -----

  /** A sleeping worker has an empty queue and has not been told to stop, unless a pusher or the
      destructor that changed this is still between its change and its notify_one. */
  lemma NoWakeupIsLost<T(!new)>(passes: T -> bool, run: seq<Action<T>>)
    requires Legal(passes, Init(), run)
    ensures var s := After(passes, Init(), run);
            s.worker == Blocked && (s.queue != [] || s.done) ==>
              exists a :: Enabled(passes, s, a) && (a.PushNotify? || a.DestructorUnlock? || a.DestructorNotify?)
  {
    Safety(passes, run);
    var s := After(passes, Init(), run);
    if s.worker == Blocked && (s.queue != [] || s.done) {
      if id :| id in s.pushers && s.pushers[id].Inserted? {
        assert Enabled(passes, s, PushNotify(id));
      } else if s.destructor == DoneSet {
        assert Enabled(passes, s, DestructorUnlock);
      } else {
        assert Enabled(passes, s, DestructorNotify);
      }
    }
  }

  /** Everything pushed is processed, waiting in the current batch, or waiting in the queue, in that
      order; when the worker has exited, what was dropped is exactly the queue it left behind. */
  lemma Conservation<T(!new)>(passes: T -> bool, run: seq<Action<T>>)
    requires Legal(passes, Init(), run)
    ensures var s := After(passes, Init(), run);
            && s.pos <= |s.batch|
            && s.pushed == Processed(s) + s.batch[s.pos..] + s.queue
            && (s.worker == Exited ==>
                  s.pushed == Taken(s.history) + s.queue && s.sink.log == LoggedAll(passes, s.history))
  {
    Safety(passes, run);
    QueueSplits(passes, After(passes, Init(), run));
  }

  lemma QueueSplits<T(!new)>(passes: T -> bool, s: State<T>)
    requires Conserved(s) && Written(passes, s)
    ensures s.pushed == Processed(s) + s.batch[s.pos..] + s.queue
    ensures s.worker == Exited ==> s.pushed == Taken(s.history) + s.queue && s.sink.log == LoggedAll(passes, s.history)
  {
    assert s.batch == s.batch[..s.pos] + s.batch[s.pos..];
    ConcatAssociates(Taken(s.history), s.batch[..s.pos], s.batch[s.pos..]);
    if s.worker == Exited {
      assert s.batch == [] && s.batch[..s.pos] == [];
    }
  }

  /** The elements of a batch that should have been logged but were not form its end, starting at
      the element whose sink call threw (or right after it, if that call had written it). */
  ghost predicate LostItsEnd<T>(passes: T -> bool, b: Batch<T>) {
    match b.fault
    case AtElement(i, written) =>
      && i < |b.elements| && passes(b.elements[i])
      && Filter(passes, b.elements)
         == Logged(passes, b) + Filter(passes, b.elements[if written then i + 1 else i..])
    case _ => Filter(passes, b.elements) == Logged(passes, b)
  }

  lemma BatchLosesItsEnd<T(!new)>(passes: T -> bool, b: Batch<T>)
    requires b.fault.AtElement? ==> b.fault.index < |b.elements| && passes(b.elements[b.fault.index])
    ensures LostItsEnd(passes, b)
  {
    if b.fault.AtElement? {
      var i := b.fault.index;
      FilterSplit(passes, b.elements, i);
      FilterSplit(passes, b.elements, i + 1);
      FilterNext(passes, b.elements, i);
    }
  }

  /** In every run, what a batch has lost is its end, from the throwing element on. */
  lemma LossIsTheEndOfABatch<T(!new)>(passes: T -> bool, run: seq<Action<T>>)
    requires Legal(passes, Init(), run)
    ensures forall b :: b in After(passes, Init(), run).history ==> LostItsEnd(passes, b)
  {
    Safety(passes, run);
    forall b | b in After(passes, Init(), run).history
      ensures LostItsEnd(passes, b)
    {
      BatchLosesItsEnd(passes, b);
    }
  }

  lemma {:induction false} LogIsSubsequence<T(!new)>(passes: T -> bool, history: seq<Batch<T>>)
    requires FaultsAreReal(passes, history)
    ensures IsSubsequence(LoggedAll(passes, history), Filter(passes, Taken(history)))
    ensures FaultFree(history) ==> LoggedAll(passes, history) == Filter(passes, Taken(history))
  {
    if history == [] {
    } else {
      var b := Last(history);
      LogIsSubsequence(passes, Front(history));
      BatchLosesItsEnd(passes, b);
      FilterConcat(passes, Taken(Front(history)), b.elements);
      var logged := Logged(passes, b);
      SubsequenceReflexive(logged);
      if b.fault.AtElement? {
        var lost := Filter(passes, b.elements[b.fault.index + (if b.fault.written then 1 else 0)..]);
        SubsequenceConcat(logged, logged, [], lost);
        assert logged + [] == logged;
      }
      SubsequenceConcat(LoggedAll(passes, Front(history)), Filter(passes, Taken(Front(history))),
                        logged, Filter(passes, b.elements));
    }
  }

  /** In every reachable state the log is an order-preserving subsequence of the level-filtered
      processed elements, and all of them when no sink call has thrown. */
  lemma LogIsOrderedImage<T(!new)>(passes: T -> bool, s: State<T>)
    requires Inv(passes, s)
    ensures IsSubsequence(s.sink.log, Filter(passes, Processed(s)))
    ensures FaultFree(s.history) ==> s.sink.log == Filter(passes, Processed(s))
  {
    var now := Filter(passes, s.batch[..s.pos]);
    LogIsSubsequence(passes, s.history);
    FilterConcat(passes, Taken(s.history), s.batch[..s.pos]);
    SubsequenceReflexive(now);
    SubsequenceConcat(LoggedAll(passes, s.history), Filter(passes, Taken(s.history)), now, now);
  }

  lemma {:induction false} NothingUnflushed<T(!new)>(passes: T -> bool, history: seq<Batch<T>>)
    requires FaultFree(history)
    ensures Unflushed(passes, history) == 0
  {
    if history == [] {
    } else {
      assert Last(history) in history;
      NothingUnflushed(passes, Front(history));
    }
  }

  /** Whenever the worker is at its wait and no batch was aborted, everything logged is flushed;
      once it has exited, everything logged is flushed whatever was aborted before. */
  lemma FlushDiscipline<T(!new)>(passes: T -> bool, run: seq<Action<T>>)
    requires Legal(passes, Init(), run)
    ensures var s := After(passes, Init(), run);
            s.worker == Exited || (s.worker != Draining && FaultFree(s.history)) ==>
              s.sink.flushed == |s.sink.log|
  {
    Safety(passes, run);
    var s := After(passes, Init(), run);
    if FaultFree(s.history) {
      NothingUnflushed(passes, s.history);
    }
  }

  // ----- Shutdown -----

  /** A bound on the steps the worker can still take once m_done is set. */
  function Remaining<T>(s: State<T>): nat
    requires s.pos <= |s.batch|
  {
    match s.worker
    case Draining => 5 + |s.batch| - s.pos
    case Blocked => 4
    case Locking => 3
    case Waking => 3
    case Testing => 2
    case Deciding => 1
    case _ => 0
  }

  function WorkerSteps<T>(run: seq<Action<T>>): nat {
    if run == [] then 0 else WorkerSteps(Front(run)) + if Last(run).IsWorker() then 1 else 0
  }

  lemma DoneStepDescends<T(!new)>(passes: T -> bool, s: State<T>, a: Action<T>)
    requires s.pos <= |s.batch| && s.done && Enabled(passes, s, a)
    requires s.worker != Draining ==> s.batch == []
    ensures var s' := Apply(passes, s, a);
            s'.done && s'.pos <= |s'.batch| && Remaining(s') + (if a.IsWorker() then 1 else 0) <= Remaining(s)
  {
  }

  lemma DoneStepTakesNothing<T(!new)>(passes: T -> bool, s: State<T>, a: Action<T>)
    requires s.done && Enabled(passes, s, a)
    ensures var s' := Apply(passes, s, a); Taken(s'.history) + s'.batch == Taken(s.history) + s.batch
  {
    var s' := Apply(passes, s, a);
    if EndsBatch(a) {
      var b := Last(s'.history);
      assert s'.history == s.history + [b] && b.elements == s.batch && s'.batch == [];
      RetireLogs(passes, s.history, b);
    } else {
      assert s'.history == s.history && s'.batch == s.batch;
    }
  }

  /** Once m_done is set, whatever the producers still push: the worker takes at most `Remaining`
      further steps and never takes another element off the queue. */
  lemma {:induction false} BoundedShutdown<T(!new)>(passes: T -> bool, s: State<T>, run: seq<Action<T>>)
    requires Inv(passes, s) && s.done && Legal(passes, s, run)
    ensures var s' := After(passes, s, run);
            && Inv(passes, s') && s'.done
            && WorkerSteps(run) + Remaining(s') <= Remaining(s)
            && Taken(s'.history) + s'.batch == Taken(s.history) + s.batch
  {
    if run == [] {
    } else {
      BoundedShutdown(passes, s, Front(run));
      var s1 := After(passes, s, Front(run));
      DoneStepDescends(passes, s1, Last(run));
      DoneStepTakesNothing(passes, s1, Last(run));
      InvKept(passes, s1, Last(run));
    }
  }

  // A second measure counts the work that is left for worker and destructor together. It also covers
  // the time before m_done is set, when pushes add to it.

  function WorkerRank<T>(s: State<T>): nat
    requires s.pos <= |s.batch|
  {
    match s.worker
    case Draining => 5 + |s.batch| - s.pos
    case Locking => 4
    case Waking => 4
    case Testing => 3
    case Deciding => 2
    case Blocked => 1
    case _ => 0
  }

  function DestructorRank(pc: DestructorPc): nat {
    match pc
    case Alive => 6
    case WantsLock => 5
    case HoldsLock => 4
    case DoneSet => 3
    case OwesNotify => 2
    case Joining => 1
    case Joined => 0
  }

  function Work<T>(s: State<T>): nat
    requires s.pos <= |s.batch|
  {
    10 * |s.queue| + WorkerRank(s) + 10 * DestructorRank(s.destructor)
  }

  /** What a step may add to the work: a push its elements and a wakeup, a spurious wakeup itself. */
  function Added<T>(s: State<T>, a: Action<T>): nat {
    match a
    case PushInsert(id) => if id in s.pushers && s.pushers[id].Locked? then 10 * |s.pushers[id].batch| else 0
    case PushNotify(_) => 3
    case WorkerSpuriousWakeup => 3
    case _ => 0
  }

  /** Every step of the worker and the destructor, except a spurious wakeup, does some of the work. */
  lemma StepWork<T(!new)>(passes: T -> bool, s: State<T>, a: Action<T>)
    requires Enabled(passes, s, a) && s.pos <= |s.batch| && HasReason(s)
    ensures var s' := Apply(passes, s, a);
            && s'.pos <= |s'.batch|
            && Work(s') + (if a.IsPush() || a == WorkerSpuriousWakeup then 0 else 1) <= Work(s) + Added(s, a)
  {
  }

  /** The step with which the owner of the mutex goes on. */
  function OwnerStep<T>(s: State<T>): Action<T> {
    match s.mutex
    case ByPusher(id) =>
      if id !in s.pushers then PushUnlock(id)
      else if s.pushers[id].Locked? then PushInsert(id)
      else if s.pushers[id].Inserted? then PushNotify(id)
      else PushUnlock(id)
    case ByDestructor => if s.destructor == HoldsLock then DestructorSetDone else DestructorUnlock
    case _ => if s.worker == Testing then WorkerTest else if s.done then WorkerExit(true) else WorkerSwap
  }

  /** Whoever owns the mutex can go on: no step between locking and unlocking ever waits. */
  lemma OwnerCanGoOn<T(!new)>(passes: T -> bool, s: State<T>)
    requires Ownership(s) && s.mutex != Free && s.worker != Crashed
    ensures Enabled(passes, s, OwnerStep(s))
    ensures OwnerStep(s).IsWorker() <==> s.mutex == ByWorker
    ensures OwnerStep(s).IsPush() ==> s.mutex == ByPusher(OwnerStep(s).id) && !OwnerStep(s).PushStart?
  {
  }

  /** What a worker that is awake does next, or the owner of the mutex it waits for. */
  function NextStep<T>(passes: T -> bool, s: State<T>): Action<T>
    requires s.pos <= |s.batch|
  {
    match s.worker
    case Draining =>
      if s.pos == |s.batch| then if s.count == 0 then WorkerEndBatch else WorkerFlush(true)
      else if passes(s.batch[s.pos]) then WorkerLog else WorkerSkip
    case Locking => if s.mutex == Free then WorkerLock else OwnerStep(s)
    case Waking => if s.mutex == Free then WorkerRelock else OwnerStep(s)
    case _ => OwnerStep(s)
  }

  /** A step of the worker, of the owner of the mutex, or the destructor's owed notification. */
  predicate IsDue<T>(s: State<T>, a: Action<T>) {
    || (a.IsWorker() && !a.WorkerSpuriousWakeup?)
    || (a.IsPush() && !a.PushStart? && s.mutex == ByPusher(a.id))
    || (a.IsDestructor() && (s.mutex == ByDestructor || s.destructor == OwesNotify))
  }

  /** A sink call that throws. */
  predicate IsFault<T>(a: Action<T>) {
    match a
    case WorkerLogThrows(_) => true
    case WorkerExit(flushes) => !flushes
    case WorkerFlush(flushes) => !flushes
    case _ => false
  }

  lemma AwakeCanGoOn<T(!new)>(passes: T -> bool, s: State<T>)
    requires Inv(passes, s) && s.worker !in {Blocked, Exited, Crashed}
    ensures var a := NextStep(passes, s);
            Enabled(passes, s, a) && IsDue(s, a) && !IsFault(a) && (!a.IsWorker() ==> s.mutex != Free)
    ensures s.mutex in {Free, ByWorker} ==> NextStep(passes, s).IsWorker()
  {
    if s.mutex != Free {
      OwnerCanGoOn(passes, s);
    }
  }

  /** After the destructor's notification the worker is never stuck: it can take a step itself, or
      a pusher that owns the mutex can go on towards unlocking it. */
  lemma JoinMakesProgress<T(!new)>(passes: T -> bool, s: State<T>)
    requires Inv(passes, s) && s.destructor == Joining && s.worker !in {Exited, Crashed}
    ensures var a := NextStep(passes, s);
            && Enabled(passes, s, a) && a != WorkerSpuriousWakeup && !IsFault(a)
            && (a.IsWorker() || (a.IsPush() && !a.PushStart? && s.mutex == ByPusher(a.id)))
  {
    AwakeCanGoOn(passes, s);
  }

  // ----- Progress before shutdown -----

  /** In every reachable state the worker has ended, or sleeps because there is nothing to do, or a
      step is enabled that it, the owner of the mutex or an owed notification makes. */
  lemma NeverStuck<T(!new)>(passes: T -> bool, run: seq<Action<T>>)
    requires Legal(passes, Init(), run)
    ensures var s := After(passes, Init(), run);
            || s.worker in {Exited, Crashed}
            || (s.worker == Blocked && s.queue == [] && !s.done)
            || exists a :: Enabled(passes, s, a) && IsDue(s, a)
  {
    Safety(passes, run);
    var s := After(passes, Init(), run);
    if s.worker == Blocked && (s.queue != [] || s.done) {
      NoWakeupIsLost(passes, run);
      var a :| Enabled(passes, s, a) && (a.PushNotify? || a.DestructorUnlock? || a.DestructorNotify?);
      assert IsDue(s, a);
    } else if s.worker !in {Blocked, Exited, Crashed} {
      AwakeCanGoOn(passes, s);
    }
  }

  /** No new push, no step of the destructor, no spurious wakeup, no fault. */
  predicate IsCalm<T>(a: Action<T>) {
    !a.PushStart? && !a.IsDestructor() && !a.WorkerSpuriousWakeup? && !IsFault(a)
  }

  ghost predicate IsCalmRun<T(!new)>(run: seq<Action<T>>) {
    forall a :: a in run ==> IsCalm(a)
  }

  /** The worker sleeps, everything taken is processed, and no push is under way. */
  predicate IsSettled<T(==)>(s: State<T>) {
    s.worker == Blocked && s.queue == [] && s.batch == [] && s.mutex == Free
  }

  /** What the pusher that owns the mutex has not inserted yet. */
  function InFlight<T>(s: State<T>): seq<T> {
    if s.mutex.ByPusher? && s.mutex.id in s.pushers && s.pushers[s.mutex.id].Locked?
    then s.pushers[s.mutex.id].batch else []
  }

  /** What the sink has still to be given. */
  function Due<T>(s: State<T>): seq<T>
    requires s.pos <= |s.batch|
  {
    s.batch[s.pos..] + s.queue + InFlight(s)
  }

  function PusherWork<T>(pc: PusherPc<T>): nat {
    match pc
    case Wanting(batch) => 10 * |batch| + 9
    case Locked(batch) => 10 * |batch| + 8
    case Inserted => 7
    case Notified => 3
  }

  function OwnerWork<T>(s: State<T>): nat {
    if s.mutex.ByPusher? && s.mutex.id in s.pushers then PusherWork(s.pushers[s.mutex.id]) else 0
  }

  predicate CanSettle<T(==)>(s: State<T>) {
    !s.done && s.mutex != ByDestructor
  }

  function CalmStep<T>(passes: T -> bool, s: State<T>): Action<T>
    requires s.pos <= |s.batch|
  {
    if s.mutex.ByPusher? then OwnerStep(s) else NextStep(passes, s)
  }

  lemma CalmStepEnabled<T(!new)>(passes: T -> bool, s: State<T>)
    requires Inv(passes, s) && CanSettle(s) && !IsSettled(s)
    ensures var a := CalmStep(passes, s);
            Enabled(passes, s, a) && IsCalm(a) && (a.IsPush() ==> s.mutex == ByPusher(a.id))
  {
    if s.mutex != Free {
      OwnerCanGoOn(passes, s);
    }
    if !s.mutex.ByPusher? && s.worker != Blocked {
      AwakeCanGoOn(passes, s);
    }
  }

  /** A calm step leaves less to do, and what it takes from the part that is due it gives to the sink. */
  lemma CalmStepSettles<T(!new)>(passes: T -> bool, s: State<T>, a: Action<T>)
    requires Inv(passes, s) && CanSettle(s) && Enabled(passes, s, a) && IsCalm(a)
    requires a.IsPush() ==> s.mutex == ByPusher(a.id)
    ensures var s' := Apply(passes, s, a);
            && CanSettle(s') && s'.pos <= |s'.batch| && s'.destructor == s.destructor
            && Work(s') + OwnerWork(s') < Work(s) + OwnerWork(s)
            && s'.pushed + InFlight(s') == s.pushed + InFlight(s)
            && (FaultFree(s.history) ==> FaultFree(s'.history))
  {
    StepWork(passes, s, a);
  }

  lemma DrainStepLogs<T(!new)>(passes: T -> bool, s: State<T>, a: Action<T>)
    requires Conserved(s) && Enabled(passes, s, a) && (a.WorkerSkip? || a.WorkerLog?)
    ensures var s' := Apply(passes, s, a);
            && s'.pos <= |s'.batch|
            && s'.sink.log + Filter(passes, Due(s')) == s.sink.log + Filter(passes, Due(s))
  {
    var s' := Apply(passes, s, a);
    var kept := if a.WorkerLog? then [s.batch[s.pos]] else [];
    assert Filter(passes, Due(s)) == kept + Filter(passes, Due(s')) by {
      assert InFlight(s') == InFlight(s);
      DueUnfolds(passes, s.batch, s.pos, s.queue + InFlight(s));
      ConcatAssociates(s.batch[s.pos..], s.queue, InFlight(s));
      ConcatAssociates(s.batch[s'.pos..], s.queue, InFlight(s));
    }
    assert s'.sink.log == s.sink.log + kept;
    ConcatAssociates(s.sink.log, kept, Filter(passes, Due(s')));
  }

  lemma DueUnfolds<T>(passes: T -> bool, batch: seq<T>, pos: nat, rest: seq<T>)
    requires pos < |batch|
    ensures Filter(passes, batch[pos..] + rest)
            == (if passes(batch[pos]) then [batch[pos]] else []) + Filter(passes, batch[pos + 1..] + rest)
  {
    var x := batch[pos];
    assert batch[pos..] + rest == [x] + (batch[pos + 1..] + rest);
    FilterConcat(passes, [x], batch[pos + 1..] + rest);
    assert Front([x]) == [];
  }

  lemma OtherStepKeepsDue<T(!new)>(passes: T -> bool, s: State<T>, a: Action<T>)
    requires Ownership(s) && Conserved(s) && Enabled(passes, s, a) && IsCalm(a) && !a.WorkerSkip? && !a.WorkerLog?
    requires a.IsPush() ==> s.mutex == ByPusher(a.id)
    ensures var s' := Apply(passes, s, a);
            s'.pos <= |s'.batch| && s'.sink.log == s.sink.log && Due(s') == Due(s)
  {
    var s' := Apply(passes, s, a);
    if a.PushInsert? {
      assert InFlight(s) == s.pushers[a.id].batch && InFlight(s') == [];
      ConcatAssociates(s.batch[s.pos..], s.queue, InFlight(s));
    } else if a.WorkerSwap? {
      assert InFlight(s) == InFlight(s') == [];
      assert s.batch[s.pos..] == [] && s'.batch[s'.pos..] == s.queue;
    } else {
      assert InFlight(s) == InFlight(s') && s'.queue == s.queue;
      assert s'.batch[s'.pos..] == s.batch[s.pos..];
    }
  }

  lemma CalmStepLogs<T(!new)>(passes: T -> bool, s: State<T>, a: Action<T>)
    requires Ownership(s) && Conserved(s) && Enabled(passes, s, a) && IsCalm(a)
    requires a.IsPush() ==> s.mutex == ByPusher(a.id)
    ensures var s' := Apply(passes, s, a);
            && s'.pos <= |s'.batch|
            && s'.sink.log + Filter(passes, Due(s')) == s.sink.log + Filter(passes, Due(s))
  {
    if a.WorkerSkip? || a.WorkerLog? {
      DrainStepLogs(passes, s, a);
    } else {
      OtherStepKeepsDue(passes, s, a);
    }
  }

  /** `s'` is `s` with all that is due processed. */
  ghost predicate Settles<T>(passes: T -> bool, s: State<T>, s': State<T>)
    requires s.pos <= |s.batch|
  {
    && IsSettled(s') && !s'.done && s'.destructor == s.destructor
    && s'.sink.log == s.sink.log + Filter(passes, s.batch[s.pos..] + s.queue + InFlight(s))
    && s'.pushed == s.pushed + InFlight(s)
    && (FaultFree(s.history) ==> FaultFree(s'.history))
  }

  ghost predicate LeadsTo<T(!new)>(passes: T -> bool, run: seq<Action<T>>, s: State<T>) {
    Legal(passes, Init(), run) && After(passes, Init(), run) == s
  }

  ghost predicate CanBeLogged<T(!new)>(passes: T -> bool, run: seq<Action<T>>, s: State<T>)
    requires s.pos <= |s.batch|
  {
    exists more, s' :: IsCalmRun(more) && LeadsTo(passes, run + more, s') && Settles(passes, s, s')
  }

  lemma OneMore<T(!new)>(passes: T -> bool, run: seq<Action<T>>, s: State<T>, a: Action<T>)
    requires LeadsTo(passes, run, s) && Enabled(passes, s, a)
    ensures LeadsTo(passes, run + [a], Apply(passes, s, a))
  {
    assert Front(run + [a]) == run;
  }

  lemma LoggedAlready<T(!new)>(passes: T -> bool, run: seq<Action<T>>, s: State<T>)
    requires LeadsTo(passes, run, s) && IsSettled(s) && !s.done && s.pos <= |s.batch|
    ensures CanBeLogged(passes, run, s)
  {
    SettledAlready(passes, s);
    assert run + [] == run;
    assert LeadsTo(passes, run + [], s) && IsCalmRun<T>([]);
  }

  lemma LoggedAfterStep<T(!new)>(passes: T -> bool, run: seq<Action<T>>, s: State<T>, a: Action<T>, s1: State<T>)
    requires IsCalm(a) && s.pos <= |s.batch| && s1.pos <= |s1.batch| && CanBeLogged(passes, run + [a], s1)
    requires s1.destructor == s.destructor && s1.pushed + InFlight(s1) == s.pushed + InFlight(s)
    requires s1.sink.log + Filter(passes, Due(s1)) == s.sink.log + Filter(passes, Due(s))
    requires FaultFree(s.history) ==> FaultFree(s1.history)
    ensures CanBeLogged(passes, run, s)
  {
    var more, s' :| IsCalmRun(more) && LeadsTo(passes, (run + [a]) + more, s') && Settles(passes, s1, s');
    assert (run + [a]) + more == run + ([a] + more);
    SettlesTogether(passes, s, s1, s');
    assert IsCalmRun([a] + more);
  }

  /** Every element that has reached the queue can be logged: as long as the destructor has not
      taken the mutex, every run can be continued, without any new push and without faults, until
      the worker sleeps and the log has grown by exactly what passes the level in the rest of the
      batch, the queue, and the push that owns the mutex. */
  lemma QueueIsLogged<T(!new)>(passes: T -> bool, run: seq<Action<T>>)
    requires Legal(passes, Init(), run) && After(passes, Init(), run).destructor in {Alive, WantsLock}
    ensures var s := After(passes, Init(), run);
            && s.pos <= |s.batch|
            && exists more, s' :: IsCalmRun(more) && LeadsTo(passes, run + more, s') && Settles(passes, s, s')
  {
    Safety(passes, run);
    LoggedFrom(passes, run, After(passes, Init(), run));
  }

  lemma {:induction false} LoggedFrom<T(!new)>(passes: T -> bool, run: seq<Action<T>>, s: State<T>)
    requires LeadsTo(passes, run, s) && Inv(passes, s) && CanSettle(s)
    ensures CanBeLogged(passes, run, s)
    decreases Work(s) + OwnerWork(s)
  {
    if IsSettled(s) {
      LoggedAlready(passes, run, s);
    } else {
      var a := CalmStep(passes, s);
      CalmStepEnabled(passes, s);
      var s1 := Apply(passes, s, a);
      OneMore(passes, run, s, a);
      InvKept(passes, s, a);
      CalmStepSettles(passes, s, a);
      CalmStepLogs(passes, s, a);
      LoggedFrom(passes, run + [a], s1);
      LoggedAfterStep(passes, run, s, a, s1);
    }
  }

  lemma SettledAlready<T>(passes: T -> bool, s: State<T>)
    requires IsSettled(s) && !s.done && s.pos <= |s.batch|
    ensures Settles(passes, s, s)
  {
    assert s.batch[s.pos..] + s.queue + InFlight(s) == [];
    assert s.sink.log + [] == s.sink.log && s.pushed + [] == s.pushed;
  }

  lemma SettlesTogether<T>(passes: T -> bool, s: State<T>, s1: State<T>, s': State<T>)
    requires s.pos <= |s.batch| && s1.pos <= |s1.batch| && Settles(passes, s1, s')
    requires s1.destructor == s.destructor && s1.pushed + InFlight(s1) == s.pushed + InFlight(s)
    requires s1.sink.log + Filter(passes, Due(s1)) == s.sink.log + Filter(passes, Due(s))
    requires FaultFree(s.history) ==> FaultFree(s1.history)
    ensures Settles(passes, s, s')
  {
  }
}
