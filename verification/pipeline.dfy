/** The whole log pipeline as one step system: I/O threads run session handlers, each handler
    frames a chunk and pushes the elements to every logger in turn, each logger runs its own
    protocol, and ~Server stops the threads before it destroys the loggers. */
module Pipeline {
  import opened Basics
  import opened Elements
  import opened Framing
  import M = LoggerMachine

  /** An element together with the session whose bytes it was cut from. */
  datatype Tagged = Tagged(session: nat, element: Element)

  /** A session waits for its next read, or its handler runs on a thread and pushes `batch`:
      loggers below `next` have it, and `entered` tells whether the push to `next` has begun. */
  datatype Handler = Reading | Pushing(thread: nat, batch: seq<Element>, next: nat, entered: bool) | Closed

  datatype Session = Session(received: string, current: string, handler: Handler)

  datatype Thread = Idle | Handling(session: nat) | Finished

  datatype Phase = Up | JoiningThreads(joined: nat) | Clearing(cleared: nat)

  datatype Config = Config(decode: Decoder, thresholds: seq<Level>, threads: nat)

  datatype State = State(sessions: seq<Session>, loggers: seq<M.State<Tagged>>, threads: seq<Thread>, phase: Phase)

  datatype Action =
    | Accept(thread: nat)
    | Read(thread: nat, session: nat, data: string)
    | ReadError(thread: nat, session: nat)
    | Push(session: nat, push: M.Action<Tagged>)
    | EndFanOut(session: nat)
    | Worker(logger: nat, work: M.Action<Tagged>)
    | Stop
    | FinishThread(thread: nat)
    | JoinThread
    | StartClearing
    | Destroy(destroy: M.Action<Tagged>)
    | ClearNext

  function Passes(threshold: Level): Tagged -> bool {
    (t: Tagged) => threshold <= t.element.level
  }

  function Tag(session: nat, batch: seq<Element>): seq<Tagged> {
    if batch == [] then [] else Tag(session, Front(batch)) + [Tagged(session, Last(batch))]
  }

  /** The elements of one session, in the order in which they occur. */
  function Only(session: nat, s: seq<Tagged>): seq<Element> {
    if s == [] then []
    else Only(session, Front(s)) + if Last(s).session == session then [Last(s).element] else []
  }

  function Init(cfg: Config): State {
    State([], seq(|cfg.thresholds|, i => M.Init()), seq(cfg.threads, i => Idle), Up)
  }

  predicate IsIdle(st: State, thread: nat) {
    thread < |st.threads| && st.threads[thread] == Idle
  }

  predicate IsFanningOut(st: State, session: nat) {
    session < |st.sessions| && st.sessions[session].handler.Pushing?
  }

  /** The push steps a handler takes on the logger it has reached, in program order. */
  predicate IsOwnPush(session: nat, h: Handler, a: M.Action<Tagged>)
    requires h.Pushing?
  {
    a.IsPush() && a.id == session
    && (a.PushStart? <==> !h.entered)
    && (a.PushStart? ==> a.batch == Tag(session, h.batch))
  }

  predicate Enabled(cfg: Config, st: State, a: Action)
    requires |st.loggers| == |cfg.thresholds|
  {
    match a
    case Accept(t) => st.phase == Up && IsIdle(st, t)
    case Read(t, s, data) =>
      st.phase == Up && IsIdle(st, t) && s < |st.sessions| && st.sessions[s].handler == Reading && |data| <= 1024
    case ReadError(t, s) =>
      st.phase == Up && IsIdle(st, t) && s < |st.sessions| && st.sessions[s].handler == Reading
    case Push(s, p) =>
      && IsFanningOut(st, s)
      && var h := st.sessions[s].handler;
      && h.next < |st.loggers| && IsOwnPush(s, h, p)
      && M.Enabled(Passes(cfg.thresholds[h.next]), st.loggers[h.next], p)
    case EndFanOut(s) => IsFanningOut(st, s) && st.sessions[s].handler.next == |st.loggers|
                         && st.sessions[s].handler.thread < |st.threads|
    case Worker(i, w) =>
      i < |st.loggers| && w.IsWorker() && M.Enabled(Passes(cfg.thresholds[i]), st.loggers[i], w)
    case Stop => st.phase == Up
    case FinishThread(t) => st.phase != Up && IsIdle(st, t)
    case JoinThread =>
      st.phase.JoiningThreads? && st.phase.joined < |st.threads| && st.threads[st.phase.joined] == Finished
    case StartClearing => st.phase.JoiningThreads? && st.phase.joined == |st.threads|
    case Destroy(d) =>
      && st.phase.Clearing? && st.phase.cleared < |st.loggers| && d.IsDestructor()
      && M.Enabled(Passes(cfg.thresholds[st.phase.cleared]), st.loggers[st.phase.cleared], d)
    case ClearNext =>
      st.phase.Clearing? && st.phase.cleared < |st.loggers| && st.loggers[st.phase.cleared].destructor == M.Joined
  }

  function StepLogger(cfg: Config, st: State, i: nat, a: M.Action<Tagged>): State
    requires |st.loggers| == |cfg.thresholds| && i < |st.loggers|
    requires M.Enabled(Passes(cfg.thresholds[i]), st.loggers[i], a)
  {
    st.(loggers := st.loggers[i := M.Apply(Passes(cfg.thresholds[i]), st.loggers[i], a)])
  }

  function Apply(cfg: Config, st: State, a: Action): State
    requires |st.loggers| == |cfg.thresholds| && Enabled(cfg, st, a)
  {
    match a
    case Accept(_) => st.(sessions := st.sessions + [Session([], [], Reading)])
    case Read(t, s, data) =>
      var sess := st.sessions[s];
      var (cut, rest) := Process(sess.current, data);
      var batch := ElementsOf(cfg.decode, cut);
      var fed := sess.(received := sess.received + data, current := rest);
      if batch == [] then st.(sessions := st.sessions[s := fed])
      else st.(sessions := st.sessions[s := fed.(handler := Pushing(t, batch, 0, false))],
               threads := st.threads[t := Handling(s)])
    case ReadError(_, s) => st.(sessions := st.sessions[s := st.sessions[s].(handler := Closed)])
    case Push(s, p) =>
      var h := st.sessions[s].handler;
      var h' := if p.PushStart? then h.(entered := true)
                else if p.PushUnlock? then h.(entered := false, next := h.next + 1) else h;
      StepLogger(cfg, st, h.next, p).(sessions := st.sessions[s := st.sessions[s].(handler := h')])
    case EndFanOut(s) =>
      st.(sessions := st.sessions[s := st.sessions[s].(handler := Reading)],
          threads := st.threads[st.sessions[s].handler.thread := Idle])
    case Worker(i, w) => StepLogger(cfg, st, i, w)
    case Stop => st.(phase := JoiningThreads(0))
    case FinishThread(t) => st.(threads := st.threads[t := Finished])
    case JoinThread => st.(phase := JoiningThreads(st.phase.joined + 1))
    case StartClearing => st.(phase := Clearing(0))
    case Destroy(d) => StepLogger(cfg, st, st.phase.cleared, d)
    case ClearNext => st.(phase := Clearing(st.phase.cleared + 1))
  }

  ghost predicate Legal(cfg: Config, run: seq<Action>)
    decreases |run|, 0
  {
    run == [] || (Legal(cfg, Front(run)) && Enabled(cfg, After(cfg, Front(run)), Last(run)))
  }

  ghost function After(cfg: Config, run: seq<Action>): (st: State)
    requires Legal(cfg, run)
    ensures |st.loggers| == |cfg.thresholds|
    decreases |run|, 1
  {
    if run == [] then Init(cfg) else Apply(cfg, After(cfg, Front(run)), Last(run))
  }

  // ----- The invariant -----

  /** Whether the batch in fan-out is already in the queue history of logger `i`. */
  ghost predicate HasBatch(st: State, session: nat, i: nat)
    requires IsFanningOut(st, session) && i < |st.loggers|
  {
    var h := st.sessions[session].handler;
    i < h.next
    || (i == h.next && h.entered && session in st.loggers[i].pushers
        && st.loggers[i].pushers[session] in {M.Inserted, M.Notified})
  }

  /** What session `session` has emitted but not yet pushed to logger `i`. */
  ghost function Pending(st: State, session: nat, i: nat): seq<Element>
    requires session < |st.sessions| && i < |st.loggers|
  {
    if IsFanningOut(st, session) && !HasBatch(st, session, i) then st.sessions[session].handler.batch else []
  }

  ghost predicate LoggersOk(cfg: Config, st: State) {
    |st.loggers| == |cfg.thresholds|
    && forall i :: 0 <= i < |st.loggers| ==> M.Inv(Passes(cfg.thresholds[i]), st.loggers[i])
  }

  ghost predicate BuffersOk(st: State) {
    forall s :: 0 <= s < |st.sessions| ==> st.sessions[s].current == Buffer(Run(IDLE, st.sessions[s].received))
  }

  /** Each logger's push history, restricted to a session, is what the session emitted, minus the
      batch still in fan-out if it has not reached that logger. */
  ghost predicate FanOutOk(cfg: Config, st: State) {
    && (forall s, i :: 0 <= s < |st.sessions| && 0 <= i < |st.loggers| ==>
          Only(s, st.loggers[i].pushed) + Pending(st, s, i) == Emitted(cfg.decode, st.sessions[s].received))
    && (forall s: nat, i :: |st.sessions| <= s && 0 <= i < |st.loggers| ==> Only(s, st.loggers[i].pushed) == [])
  }

  /** A push is in progress on a logger exactly for the handlers that have entered it. */
  ghost predicate PushersOk(st: State) {
    && (forall s, i :: 0 <= i < |st.loggers| && s in st.loggers[i].pushers ==>
          && IsFanningOut(st, s) && st.sessions[s].handler.next == i && st.sessions[s].handler.entered
          && (var pc := st.loggers[i].pushers[s];
              pc.Wanting? || pc.Locked? ==> pc.batch == Tag(s, st.sessions[s].handler.batch)))
    && (forall s :: 0 <= s < |st.sessions| && IsFanningOut(st, s) ==>
          var h := st.sessions[s].handler;
          h.next <= |st.loggers| && (h.entered ==> h.next < |st.loggers| && s in st.loggers[h.next].pushers))
  }

  ghost predicate ThreadsOk(st: State) {
    && (forall t :: 0 <= t < |st.threads| && st.threads[t].Handling? ==>
          IsFanningOut(st, st.threads[t].session) && st.sessions[st.threads[t].session].handler.thread == t)
    && (forall s :: 0 <= s < |st.sessions| && IsFanningOut(st, s) ==>
          var t := st.sessions[s].handler.thread; t < |st.threads| && st.threads[t] == Handling(s))
  }

  ghost predicate PhaseOk(st: State) {
    && (st.phase == Up ==> forall t :: 0 <= t < |st.threads| ==> st.threads[t] != Finished)
    && (st.phase.JoiningThreads? ==>
          st.phase.joined <= |st.threads| && forall t :: 0 <= t < st.phase.joined ==> st.threads[t] == Finished)
    && (st.phase.Clearing? ==>
          st.phase.cleared <= |st.loggers| && forall t :: 0 <= t < |st.threads| ==> st.threads[t] == Finished)
    && (forall i :: 0 <= i < |st.loggers| ==>
          && (!st.phase.Clearing? || i > st.phase.cleared ==> st.loggers[i].destructor == M.Alive)
          && (st.phase.Clearing? && i < st.phase.cleared ==> st.loggers[i].destructor == M.Joined))
  }

  ghost predicate Inv(cfg: Config, st: State) {
    LoggersOk(cfg, st) && BuffersOk(st) && FanOutOk(cfg, st) && PushersOk(st) && ThreadsOk(st) && PhaseOk(st)
  }

  lemma {:induction false} OnlyConcat(session: nat, a: seq<Tagged>, b: seq<Tagged>)
    ensures Only(session, a + b) == Only(session, a) + Only(session, b)
  {
    if b == [] {
      assert a + b == a;
    } else {
      OnlyConcat(session, a, Front(b));
      assert Front(a + b) == a + Front(b);
    }
  }

  lemma {:induction false} OnlyTag(session: nat, other: nat, batch: seq<Element>)
    ensures Only(session, Tag(other, batch)) == if session == other then batch else []
  {
    if batch == [] {
    } else {
      OnlyTag(session, other, Front(batch));
      var tagged := Tag(other, batch);
      assert Front(tagged) == Tag(other, Front(batch));
      assert Front(batch) + [Last(batch)] == batch;
    }
  }

  lemma LoggersKept(cfg: Config, st: State, a: Action)
    requires LoggersOk(cfg, st) && Enabled(cfg, st, a)
    ensures LoggersOk(cfg, Apply(cfg, st, a))
  {
    match a
    case Push(s, p) =>
      var i := st.sessions[s].handler.next;
      M.InvKept(Passes(cfg.thresholds[i]), st.loggers[i], p);
    case Worker(i, w) => M.InvKept(Passes(cfg.thresholds[i]), st.loggers[i], w);
    case Destroy(d) =>
      var i := st.phase.cleared;
      M.InvKept(Passes(cfg.thresholds[i]), st.loggers[i], d);
    case _ =>
  }

  lemma BuffersKept(cfg: Config, st: State, a: Action)
    requires LoggersOk(cfg, st) && BuffersOk(st) && Enabled(cfg, st, a)
    ensures BuffersOk(Apply(cfg, st, a))
  {
    if a.Read? {
      Rescan(st.sessions[a.session].received, a.data);
    }
  }

  /** The effect of a step on handlers and threads. */
  ghost predicate ThreadEffect(st: State, st': State, a: Action) {
    match a
    case Accept(_) => st'.threads == st.threads && st'.sessions == st.sessions + [Session([], [], Reading)]
    case Read(t, s, _) =>
      && IsIdle(st, t) && s < |st.sessions| && st.sessions[s].handler == Reading
      && |st'.sessions| == |st.sessions| && st'.sessions == st.sessions[s := st'.sessions[s]]
      && var h := st'.sessions[s].handler;
      && (h == Reading || (h.Pushing? && h.thread == t && h.next == 0 && !h.entered))
      && st'.threads == if h == Reading then st.threads else st.threads[t := Handling(s)]
    case ReadError(_, s) =>
      && s < |st.sessions| && st.sessions[s].handler == Reading && st'.threads == st.threads
      && st'.sessions == st.sessions[s := st.sessions[s].(handler := Closed)]
    case Push(s, _) =>
      && st'.threads == st.threads && IsFanningOut(st, s)
      && |st'.sessions| == |st.sessions| && st'.sessions == st.sessions[s := st'.sessions[s]]
      && st'.sessions[s].handler.Pushing? && st'.sessions[s].handler.thread == st.sessions[s].handler.thread
    case EndFanOut(s) =>
      && IsFanningOut(st, s) && st.sessions[s].handler.thread < |st.threads|
      && st.sessions[s].handler.next == |st.loggers|
      && st'.sessions == st.sessions[s := st.sessions[s].(handler := Reading)]
      && st'.threads == st.threads[st.sessions[s].handler.thread := Idle]
    case FinishThread(t) =>
      IsIdle(st, t) && st'.sessions == st.sessions && st'.threads == st.threads[t := Finished]
    case _ => st'.sessions == st.sessions && st'.threads == st.threads
  }

  lemma StepThreads(cfg: Config, st: State, a: Action)
    requires |st.loggers| == |cfg.thresholds| && Enabled(cfg, st, a)
    ensures ThreadEffect(st, Apply(cfg, st, a), a)
  {
  }

  lemma ThreadsKept(st: State, st': State, a: Action)
    requires ThreadsOk(st) && ThreadEffect(st, st', a)
    ensures ThreadsOk(st')
  {
    forall t | 0 <= t < |st'.threads| && st'.threads[t].Handling?
      ensures IsFanningOut(st', st'.threads[t].session) && st'.sessions[st'.threads[t].session].handler.thread == t
    {
      var s := st'.threads[t].session;
      assert st.threads[t] == Handling(s) || (a.Read? && a.session == s);
    }
    forall s | 0 <= s < |st'.sessions| && IsFanningOut(st', s)
      ensures var t := st'.sessions[s].handler.thread; t < |st'.threads| && st'.threads[t] == Handling(s)
    {
      assert IsFanningOut(st, s) || (a.Read? && a.session == s);
    }
  }

  /** The effect of a step on the server's phase and the destructors of its loggers. */
  ghost predicate PhaseEffect(st: State, st': State, a: Action) {
    && |st'.loggers| == |st.loggers|
    && match a
       case Stop => st.phase == Up && st'.phase == JoiningThreads(0) && st'.loggers == st.loggers
       case JoinThread =>
         && st.phase.JoiningThreads? && st.phase.joined < |st.threads| && st.threads[st.phase.joined] == Finished
         && st'.phase == JoiningThreads(st.phase.joined + 1) && st'.loggers == st.loggers
       case StartClearing =>
         st.phase == JoiningThreads(|st.threads|) && st'.phase == Clearing(0) && st'.loggers == st.loggers
       case ClearNext =>
         && st.phase.Clearing? && st.phase.cleared < |st.loggers|
         && st.loggers[st.phase.cleared].destructor == M.Joined
         && st'.phase == Clearing(st.phase.cleared + 1) && st'.loggers == st.loggers
       case Destroy(_) =>
         && st'.phase == st.phase && st.phase.Clearing? && st.phase.cleared < |st.loggers|
         && forall i :: 0 <= i < |st.loggers| && i != st.phase.cleared ==> st'.loggers[i] == st.loggers[i]
       case _ =>
         && st'.phase == st.phase
         && forall i :: 0 <= i < |st.loggers| ==> st'.loggers[i].destructor == st.loggers[i].destructor
  }

  lemma StepPhase(cfg: Config, st: State, a: Action)
    requires |st.loggers| == |cfg.thresholds| && Enabled(cfg, st, a)
    ensures PhaseEffect(st, Apply(cfg, st, a), a)
  {
    match a
    case Push(s, p) =>
      var i := st.sessions[s].handler.next;
      M.PushersMoveAlone(Passes(cfg.thresholds[i]), st.loggers[i], p);
    case Worker(i, w) => M.PushersMoveAlone(Passes(cfg.thresholds[i]), st.loggers[i], w);
    case _ =>
  }

  lemma PhaseKept(st: State, st': State, a: Action)
    requires ThreadsOk(st) && PhaseOk(st) && ThreadEffect(st, st', a) && PhaseEffect(st, st', a)
    requires a.Read? ==> st.phase == Up
    requires a.FinishThread? ==> st.phase != Up
    ensures PhaseOk(st')
  {
    if a.EndFanOut? {
      assert st.threads[st.sessions[a.session].handler.thread] == Handling(a.session);
    }
  }

  // The proofs about fan-out see a step only through its effect on handlers, pushers and histories.

  ghost predicate SamePushes(st: State, st': State) {
    && |st'.loggers| == |st.loggers|
    && forall i :: 0 <= i < |st.loggers| ==>
         st'.loggers[i].pushed == st.loggers[i].pushed && st'.loggers[i].pushers == st.loggers[i].pushers
  }

  /** The effect of push step `p` of session `s`. */
  ghost predicate PushEffect(st: State, st': State, s: nat, p: M.Action<Tagged>) {
    && IsFanningOut(st, s) && |st'.loggers| == |st.loggers| && p.IsPush() && p.id == s
    && var h := st.sessions[s].handler;
    && var i := h.next;
    && i < |st.loggers|
    && var before, after := st.loggers[i], st'.loggers[i];
    && (forall j :: 0 <= j < |st.loggers| && j != i ==> st'.loggers[j] == st.loggers[j])
    && match p
       case PushStart(_, batch) =>
         && !h.entered && batch == Tag(s, h.batch)
         && s !in before.pushers && after.pushers == before.pushers[s := M.Wanting(batch)]
         && after.pushed == before.pushed
         && st'.sessions == st.sessions[s := st.sessions[s].(handler := h.(entered := true))]
       case PushLock(_) =>
         && h.entered && st'.sessions == st.sessions && after.pushed == before.pushed
         && s in before.pushers && before.pushers[s].Wanting?
         && after.pushers == before.pushers[s := M.Locked(before.pushers[s].batch)]
       case PushInsert(_) =>
         && h.entered && st'.sessions == st.sessions
         && s in before.pushers && before.pushers[s].Locked?
         && after.pushed == before.pushed + before.pushers[s].batch
         && after.pushers == before.pushers[s := M.Inserted]
       case PushNotify(_) =>
         && h.entered && st'.sessions == st.sessions && after.pushed == before.pushed
         && s in before.pushers && before.pushers[s] == M.Inserted
         && after.pushers == before.pushers[s := M.Notified]
       case PushUnlock(_) =>
         && h.entered && after.pushed == before.pushed
         && s in before.pushers && before.pushers[s] == M.Notified
         && after.pushers == before.pushers - {s}
         && st'.sessions == st.sessions[s := st.sessions[s].(handler := h.(entered := false, next := i + 1))]
  }

  lemma PushStep(cfg: Config, st: State, s: nat, p: M.Action<Tagged>)
    requires |st.loggers| == |cfg.thresholds| && Enabled(cfg, st, Push(s, p))
    ensures PushEffect(st, Apply(cfg, st, Push(s, p)), s, p)
  {
  }

  lemma OtherStep(cfg: Config, st: State, a: Action)
    requires |st.loggers| == |cfg.thresholds| && Enabled(cfg, st, a) && !a.Push?
    ensures SamePushes(st, Apply(cfg, st, a))
  {
    match a
    case Worker(i, w) => M.PushersMoveAlone(Passes(cfg.thresholds[i]), st.loggers[i], w);
    case Destroy(d) => M.PushersMoveAlone(Passes(cfg.thresholds[st.phase.cleared]), st.loggers[st.phase.cleared], d);
    case _ =>
  }

  lemma PushersKeptByPush(st: State, st': State, s: nat, p: M.Action<Tagged>)
    requires PushersOk(st) && PushEffect(st, st', s, p)
    ensures PushersOk(st')
  {
    var i := st.sessions[s].handler.next;
    forall s', i' | 0 <= i' < |st'.loggers| && s' in st'.loggers[i'].pushers
      ensures && IsFanningOut(st', s') && st'.sessions[s'].handler.next == i' && st'.sessions[s'].handler.entered
              && (var pc := st'.loggers[i'].pushers[s'];
                  pc.Wanting? || pc.Locked? ==> pc.batch == Tag(s', st'.sessions[s'].handler.batch))
    {
      if i' == i && s' == s {
        assert !p.PushUnlock?;
        assert IsFanningOut(st', s);
      } else {
        assert s' in st.loggers[i'].pushers;
        assert s' != s;
        assert IsFanningOut(st, s');
        assert st'.sessions[s'] == st.sessions[s'];
      }
    }
    forall s' | 0 <= s' < |st'.sessions| && IsFanningOut(st', s')
      ensures var h := st'.sessions[s'].handler;
              h.next <= |st'.loggers| && (h.entered ==> h.next < |st'.loggers| && s' in st'.loggers[h.next].pushers)
    {
      assert IsFanningOut(st, s');
    }
  }

  /** Whether step `p` of session `s` puts elements of session `s'` into the queue of logger `i`. */
  ghost predicate Inserts(st: State, s: nat, p: M.Action<Tagged>, s': nat, i: nat)
    requires IsFanningOut(st, s)
  {
    i == st.sessions[s].handler.next && s' == s && p.PushInsert?
  }

  lemma PushedByPush(st: State, st': State, s: nat, p: M.Action<Tagged>, s': nat, i: nat)
    requires PushersOk(st) && PushEffect(st, st', s, p) && i < |st.loggers|
    ensures Only(s', st'.loggers[i].pushed)
            == Only(s', st.loggers[i].pushed)
               + if Inserts(st, s, p, s', i) then st.sessions[s].handler.batch else []
  {
    if i == st.sessions[s].handler.next && p.PushInsert? {
      var batch := st.sessions[s].handler.batch;
      assert st.loggers[i].pushers[s].batch == Tag(s, batch);
      OnlyConcat(s', st.loggers[i].pushed, Tag(s, batch));
      OnlyTag(s', s, batch);
    }
  }

  lemma PendingByPush(st: State, st': State, s: nat, p: M.Action<Tagged>, s': nat, i: nat)
    requires PushersOk(st) && PushEffect(st, st', s, p) && i < |st.loggers| && s' < |st.sessions|
    ensures |st'.sessions| == |st.sessions| && st'.sessions[s'].received == st.sessions[s'].received
    ensures Pending(st, s', i)
            == (if Inserts(st, s, p, s', i) then st.sessions[s].handler.batch else []) + Pending(st', s', i)
  {
    if s' == s {
      var inserts := p.PushInsert? && i == st.sessions[s].handler.next;
      assert HasBatch(st', s, i) == (HasBatch(st, s, i) || inserts);
      assert inserts ==> !HasBatch(st, s, i);
    } else {
      assert Pending(st', s', i) == Pending(st, s', i);
    }
  }

  lemma SessionKeptByPush(cfg: Config, st: State, st': State, s: nat, p: M.Action<Tagged>, s': nat, i: nat)
    requires PushersOk(st) && FanOutOk(cfg, st) && PushEffect(st, st', s, p) && i < |st.loggers|
    requires s' < |st.sessions| == |st'.sessions|
    ensures Only(s', st'.loggers[i].pushed) + Pending(st', s', i) == Emitted(cfg.decode, st'.sessions[s'].received)
  {
    PendingByPush(st, st', s, p, s', i);
    PushedByPush(st, st', s, p, s', i);
    assert Only(s', st.loggers[i].pushed) + Pending(st, s', i) == Emitted(cfg.decode, st.sessions[s'].received);
    var before := Only(s', st.loggers[i].pushed);
    var inserted := if Inserts(st, s, p, s', i) then st.sessions[s].handler.batch else [];
    ConcatAssociates(before, inserted, Pending(st', s', i));
  }

  lemma FanOutKeptByPush(cfg: Config, st: State, st': State, s: nat, p: M.Action<Tagged>)
    requires PushersOk(st) && FanOutOk(cfg, st) && PushEffect(st, st', s, p)
    ensures FanOutOk(cfg, st')
  {
    assert |st'.sessions| == |st.sessions|;
    forall s', i | 0 <= s' < |st'.sessions| && 0 <= i < |st'.loggers|
      ensures Only(s', st'.loggers[i].pushed) + Pending(st', s', i) == Emitted(cfg.decode, st'.sessions[s'].received)
    {
      SessionKeptByPush(cfg, st, st', s, p, s', i);
    }
    forall s': nat, i | |st'.sessions| <= s' && 0 <= i < |st'.loggers|
      ensures Only(s', st'.loggers[i].pushed) == []
    {
      PushedByPush(st, st', s, p, s', i);
    }
  }

  ghost predicate ReadEffect(cfg: Config, st: State, st': State, s: nat) {
    s < |st.sessions| && s < |st'.sessions|
    && Emitted(cfg.decode, st'.sessions[s].received)
       == Emitted(cfg.decode, st.sessions[s].received)
          + if st'.sessions[s].handler.Pushing? then st'.sessions[s].handler.batch else []
  }

  lemma ReadEmits(cfg: Config, st: State, t: nat, s: nat, data: string)
    requires |st.loggers| == |cfg.thresholds| && BuffersOk(st) && Enabled(cfg, st, Read(t, s, data))
    ensures ReadEffect(cfg, st, Apply(cfg, st, Read(t, s, data)), s)
  {
    var sess := st.sessions[s];
    Rescan(sess.received, data);
    ElementsOfConcat(cfg.decode, Run(IDLE, sess.received).messages, Process(sess.current, data).0);
  }

  lemma SessionKeptBySessionStep(cfg: Config, st: State, st': State, a: Action, s: nat, i: nat)
    requires PushersOk(st) && FanOutOk(cfg, st) && !a.Push? && SamePushes(st, st') && ThreadEffect(st, st', a)
    requires a.Read? ==> ReadEffect(cfg, st, st', a.session)
    requires s < |st.sessions| && s < |st'.sessions| && i < |st.loggers|
    ensures Only(s, st'.loggers[i].pushed) + Pending(st', s, i) == Emitted(cfg.decode, st'.sessions[s].received)
  {
    assert Only(s, st.loggers[i].pushed) + Pending(st, s, i) == Emitted(cfg.decode, st.sessions[s].received);
    if a.Read? && a.session == s {
      assert Pending(st, s, i) == [];
      assert Only(s, st.loggers[i].pushed) + [] == Only(s, st.loggers[i].pushed);
    } else {
      assert Pending(st', s, i) == Pending(st, s, i);
    }
  }

  lemma FanOutKeptBySessionStep(cfg: Config, st: State, st': State, a: Action)
    requires PushersOk(st) && FanOutOk(cfg, st) && !a.Push? && SamePushes(st, st') && ThreadEffect(st, st', a)
    requires a.Read? ==> ReadEffect(cfg, st, st', a.session)
    ensures FanOutOk(cfg, st')
  {
    forall s, i | 0 <= s < |st'.sessions| && 0 <= i < |st'.loggers|
      ensures Only(s, st'.loggers[i].pushed) + Pending(st', s, i) == Emitted(cfg.decode, st'.sessions[s].received)
    {
      assert st'.loggers[i].pushed == st.loggers[i].pushed;
      if s < |st.sessions| {
        SessionKeptBySessionStep(cfg, st, st', a, s, i);
      }
    }
  }

  lemma PushersKeptBySessionStep(st: State, st': State, a: Action)
    requires PushersOk(st) && !a.Push? && SamePushes(st, st') && ThreadEffect(st, st', a)
    ensures PushersOk(st')
  {
    forall s, i | 0 <= i < |st'.loggers| && s in st'.loggers[i].pushers
      ensures && IsFanningOut(st', s) && st'.sessions[s].handler.next == i && st'.sessions[s].handler.entered
              && (var pc := st'.loggers[i].pushers[s];
                  pc.Wanting? || pc.Locked? ==> pc.batch == Tag(s, st'.sessions[s].handler.batch))
    {
      assert s in st.loggers[i].pushers && IsFanningOut(st, s);
      assert st'.sessions[s] == st.sessions[s];
    }
    forall s | 0 <= s < |st'.sessions| && IsFanningOut(st', s)
      ensures var h := st'.sessions[s].handler;
              h.next <= |st'.loggers| && (h.entered ==> h.next < |st'.loggers| && s in st'.loggers[h.next].pushers)
    {
      assert IsFanningOut(st, s) || (a.Read? && a.session == s);
    }
  }

  lemma FanOutKept(cfg: Config, st: State, a: Action)
    requires |st.loggers| == |cfg.thresholds| && BuffersOk(st) && PushersOk(st) && FanOutOk(cfg, st)
    requires Enabled(cfg, st, a)
    ensures PushersOk(Apply(cfg, st, a)) && FanOutOk(cfg, Apply(cfg, st, a))
  {
    var st' := Apply(cfg, st, a);
    if a.Push? {
      PushStep(cfg, st, a.session, a.push);
      PushersKeptByPush(st, st', a.session, a.push);
      FanOutKeptByPush(cfg, st, st', a.session, a.push);
    } else {
      OtherStep(cfg, st, a);
      StepThreads(cfg, st, a);
      if a.Read? {
        ReadEmits(cfg, st, a.thread, a.session, a.data);
      }
      PushersKeptBySessionStep(st, st', a);
      FanOutKeptBySessionStep(cfg, st, st', a);
    }
  }

  lemma InvKept(cfg: Config, st: State, a: Action)
    requires Inv(cfg, st) && Enabled(cfg, st, a)
    ensures Inv(cfg, Apply(cfg, st, a))
  {
    LoggersKept(cfg, st, a);
    BuffersKept(cfg, st, a);
    FanOutKept(cfg, st, a);
    StepThreads(cfg, st, a);
    StepPhase(cfg, st, a);
    ThreadsKept(st, Apply(cfg, st, a), a);
    PhaseKept(st, Apply(cfg, st, a), a);
  }

  lemma {:induction false} Safety(cfg: Config, run: seq<Action>)
    requires Legal(cfg, run)
    ensures Inv(cfg, After(cfg, run))
  {
    if run == [] {
    } else {
      Safety(cfg, Front(run));
      InvKept(cfg, After(cfg, Front(run)), Last(run));
    }
  }

  // ----- Fan-out agreement -----

  ghost predicate Quiescent(st: State) {
    forall s :: 0 <= s < |st.sessions| ==> !IsFanningOut(st, s)
  }

  /** In every reachable state each logger has been pushed, session by session, exactly what the
      session emitted, except for the batch in fan-out on the loggers it has not reached. */
  lemma FanOutAgreement(cfg: Config, run: seq<Action>, s: nat, i: nat)
    requires Legal(cfg, run) && s < |After(cfg, run).sessions| && i < |cfg.thresholds|
    ensures var st := After(cfg, run);
            Only(s, st.loggers[i].pushed) + Pending(st, s, i) == Emitted(cfg.decode, st.sessions[s].received)
  {
    Safety(cfg, run);
  }

  lemma {:induction false} CountOnly(s: seq<Tagged>, t: Tagged)
    ensures multiset(s)[t] == multiset(Only(t.session, s))[t.element]
  {
    if s == [] {
    } else {
      CountOnly(Front(s), t);
      assert s == Front(s) + [Last(s)];
    }
  }

  /** With no fan-out in progress all loggers have been pushed the same elements, each equally
      often, even though sessions may be interleaved differently. */
  lemma LoggersAgree(cfg: Config, run: seq<Action>, i: nat, j: nat)
    requires Legal(cfg, run) && Quiescent(After(cfg, run)) && i < |cfg.thresholds| && j < |cfg.thresholds|
    ensures var st := After(cfg, run); multiset(st.loggers[i].pushed) == multiset(st.loggers[j].pushed)
  {
    Safety(cfg, run);
    SessionsAgree(cfg, After(cfg, run), i, j);
  }

  lemma SessionsAgree(cfg: Config, st: State, i: nat, j: nat)
    requires FanOutOk(cfg, st) && Quiescent(st) && i < |st.loggers| && j < |st.loggers|
    ensures multiset(st.loggers[i].pushed) == multiset(st.loggers[j].pushed)
  {
    forall s: nat
      ensures Only(s, st.loggers[i].pushed) == Only(s, st.loggers[j].pushed)
    {
      if s < |st.sessions| {
        assert Only(s, st.loggers[i].pushed) + Pending(st, s, i) == Only(s, st.loggers[j].pushed) + Pending(st, s, j);
        assert Pending(st, s, i) == [] == Pending(st, s, j);
        assert Only(s, st.loggers[i].pushed) + [] == Only(s, st.loggers[i].pushed);
        assert Only(s, st.loggers[j].pushed) + [] == Only(s, st.loggers[j].pushed);
      }
    }
    SameSessionsSameElements(st.loggers[i].pushed, st.loggers[j].pushed);
  }

  lemma SameSessionsSameElements(a: seq<Tagged>, b: seq<Tagged>)
    requires forall s: nat :: Only(s, a) == Only(s, b)
    ensures multiset(a) == multiset(b)
  {
    forall t: Tagged
      ensures multiset(a)[t] == multiset(b)[t]
    {
      CountOnly(a, t);
      CountOnly(b, t);
    }
  }

  // ----- End to end -----

  lemma {:induction false} OnlyFilter(session: nat, threshold: Level, s: seq<Tagged>)
    ensures Only(session, Filter(Passes(threshold), s)) == Filter(Reaches(threshold), Only(session, s))
  {
    if s == [] {
    } else {
      OnlyFilter(session, threshold, Front(s));
      var last := [Last(s)];
      var kept := if Passes(threshold)(Last(s)) then last else [];
      OnlyConcat(session, Filter(Passes(threshold), Front(s)), kept);
      var own := if Last(s).session == session then [Last(s).element] else [];
      FilterConcat(Reaches(threshold), Only(session, Front(s)), own);
      assert Front(last) == [] && Front([Last(s).element]) == [];
    }
  }

  lemma {:induction false} OnlySubsequence(session: nat, a: seq<Tagged>, b: seq<Tagged>)
    requires IsSubsequence(a, b)
    ensures IsSubsequence(Only(session, a), Only(session, b))
    decreases |b|
  {
    if a == [] {
    } else {
      var tail := if Last(b).session == session then [Last(b).element] else [];
      if IsSubsequence(a, Front(b)) {
        OnlySubsequence(session, a, Front(b));
        SubsequenceConcat(Only(session, a), Only(session, Front(b)), [], tail);
        assert Only(session, a) + [] == Only(session, a);
      } else {
        OnlySubsequence(session, Front(a), Front(b));
        SubsequenceReflexive(tail);
        SubsequenceConcat(Only(session, Front(a)), Only(session, Front(b)), tail, tail);
      }
    }
  }

  /** What a session emitted lies, in order and without gaps or overlaps, in what logger `i` has
      processed, in its current batch, in its queue, and in the session's own fan-out. */
  lemma EmittedIsPartitioned(cfg: Config, run: seq<Action>, s: nat, i: nat)
    requires Legal(cfg, run) && s < |After(cfg, run).sessions| && i < |cfg.thresholds|
    ensures var st := After(cfg, run);
            var logger := st.loggers[i];
            && logger.pos <= |logger.batch|
            && Emitted(cfg.decode, st.sessions[s].received)
               == Only(s, M.Processed(logger)) + Only(s, logger.batch[logger.pos..]) + Only(s, logger.queue)
                  + Pending(st, s, i)
  {
    Safety(cfg, run);
    var st := After(cfg, run);
    var logger := st.loggers[i];
    assert M.Inv(Passes(cfg.thresholds[i]), logger);
    M.QueueSplits(Passes(cfg.thresholds[i]), logger);
    OnlyConcat(s, M.Processed(logger) + logger.batch[logger.pos..], logger.queue);
    OnlyConcat(s, M.Processed(logger), logger.batch[logger.pos..]);
  }

  /** How many of the session's emitted elements logger `i` has processed. */
  ghost function ProcessedCount(cfg: Config, run: seq<Action>, s: nat, i: nat): (n: nat)
    requires Legal(cfg, run) && s < |After(cfg, run).sessions| && i < |cfg.thresholds|
    ensures var st := After(cfg, run);
            && n <= |Emitted(cfg.decode, st.sessions[s].received)|
            && st.loggers[i].pos <= |st.loggers[i].batch|
            && Only(s, M.Processed(st.loggers[i])) == Emitted(cfg.decode, st.sessions[s].received)[..n]
  {
    EmittedIsPartitioned(cfg, run, s, i);
    |Only(s, M.Processed(After(cfg, run).loggers[i]))|
  }

  /** Over every interleaving of sessions, fan-outs and workers, and however the bytes were chunked:
      what a sink has logged of a session is, in order and without duplicates, the level-filtered
      image of a prefix of the messages in the bytes received; if no sink call of that logger has
      thrown, nothing of that prefix is missing. */
  lemma EndToEnd(cfg: Config, run: seq<Action>, s: nat, i: nat)
    requires Legal(cfg, run) && s < |After(cfg, run).sessions| && i < |cfg.thresholds|
    ensures var st := After(cfg, run);
            var n := ProcessedCount(cfg, run, s, i);
            var image := Filter(Reaches(cfg.thresholds[i]), Emitted(cfg.decode, st.sessions[s].received)[..n]);
            && IsSubsequence(Only(s, st.loggers[i].sink.log), image)
            && (M.FaultFree(st.loggers[i].history) ==> Only(s, st.loggers[i].sink.log) == image)
  {
    Safety(cfg, run);
    var logger := After(cfg, run).loggers[i];
    var passes := Passes(cfg.thresholds[i]);
    assert M.Inv(passes, logger);
    M.LogIsOrderedImage(passes, logger);
    OnlyFilter(s, cfg.thresholds[i], M.Processed(logger));
    OnlySubsequence(s, logger.sink.log, Filter(passes, M.Processed(logger)));
  }

  // ----- Teardown -----

  lemma DestructionIsQuiet(cfg: Config, st: State)
    requires Inv(cfg, st) && st.phase.Clearing?
    ensures forall t :: 0 <= t < |st.threads| ==> st.threads[t] == Finished
    ensures Quiescent(st)
    ensures forall j :: 0 <= j < |st.loggers| ==> st.loggers[j].pushers == map[]
  {
    forall j | 0 <= j < |st.loggers|
      ensures st.loggers[j].pushers == map[]
    {
      assert forall s :: s in st.loggers[j].pushers ==> IsFanningOut(st, s);
      assert st.loggers[j].pushers.Keys == {};
    }
  }

  /** Once a logger's destructor has begun, all I/O threads have finished, every fan-out that had
      begun is complete on every logger, and no push step can ever happen again. */
  lemma NoPushAfterDone(cfg: Config, run: seq<Action>, i: nat)
    requires Legal(cfg, run) && i < |cfg.thresholds|
    requires After(cfg, run).loggers[i].done || After(cfg, run).loggers[i].destructor != M.Alive
    ensures var st := After(cfg, run);
            && (forall t :: 0 <= t < |st.threads| ==> st.threads[t] == Finished)
            && Quiescent(st)
            && (forall s, p :: !Enabled(cfg, st, Push(s, p)))
            && (forall j :: 0 <= j < |st.loggers| ==> st.loggers[j].pushers == map[])
  {
    Safety(cfg, run);
    var st := After(cfg, run);
    assert M.Inv(Passes(cfg.thresholds[i]), st.loggers[i]);
    DestructionIsQuiet(cfg, st);
  }

  /** When ~Server is done, each logger has processed a prefix of what each session emitted and has
      dropped exactly the rest, which was still in its queue; everything it logged is flushed. */
  lemma AfterDestruction(cfg: Config, run: seq<Action>, s: nat, i: nat)
    requires Legal(cfg, run) && After(cfg, run).phase == Clearing(|cfg.thresholds|)
    requires s < |After(cfg, run).sessions| && i < |cfg.thresholds|
    ensures var st := After(cfg, run);
            var logger := st.loggers[i];
            && logger.worker == M.Exited && logger.sink.flushed == |logger.sink.log|
            && Emitted(cfg.decode, st.sessions[s].received) == Only(s, M.Taken(logger.history)) + Only(s, logger.queue)
            && logger.sink.log == M.LoggedAll(Passes(cfg.thresholds[i]), logger.history)
  {
    Safety(cfg, run);
    var st := After(cfg, run);
    var logger := st.loggers[i];
    assert M.Inv(Passes(cfg.thresholds[i]), logger);
    DestructionIsQuiet(cfg, st);
    M.QueueSplits(Passes(cfg.thresholds[i]), logger);
    OnlyConcat(s, M.Taken(logger.history), logger.queue);
    assert Only(s, logger.pushed) + Pending(st, s, i) == Emitted(cfg.decode, st.sessions[s].received);
  }

  /** Any step but new work and spurious wakeups. TeardownStep shows that it brings the teardown
      forward. */
  predicate IsProgress(a: Action) {
    !a.Accept? && !a.Read? && !a.ReadError? && !a.Stop? && (a.Worker? ==> a.work != M.WorkerSpuriousWakeup)
  }

  /** A progress step in which no sink call throws. */
  predicate IsCalm(a: Action) {
    IsProgress(a) && (a.Worker? ==> !M.IsFault(a.work))
  }

  /** Before the loggers are destroyed the owner of a logger's mutex is its worker or a handler. */
  lemma OwnerCanGoOn(cfg: Config, st: State, i: nat)
    requires Inv(cfg, st) && !st.phase.Clearing? && i < |st.loggers| && st.loggers[i].mutex != M.Free
    ensures exists a :: Enabled(cfg, st, a) && IsCalm(a)
  {
    var logger := st.loggers[i];
    assert M.Inv(Passes(cfg.thresholds[i]), logger);
    M.OwnerCanGoOn(Passes(cfg.thresholds[i]), logger);
    var a := M.OwnerStep(logger);
    if logger.mutex == M.ByWorker {
      assert Enabled(cfg, st, Worker(i, a));
    } else {
      assert a.IsPush() && a.id in logger.pushers;
      assert Enabled(cfg, st, Push(a.id, a));
    }
  }

  lemma HandlerCanGoOn(cfg: Config, st: State, s: nat)
    requires Inv(cfg, st) && IsFanningOut(st, s) && !st.phase.Clearing?
    ensures exists a :: Enabled(cfg, st, a) && IsCalm(a)
  {
    var h := st.sessions[s].handler;
    var i := h.next;
    if i == |st.loggers| {
      assert Enabled(cfg, st, EndFanOut(s));
    } else {
      var logger := st.loggers[i];
      assert M.Inv(Passes(cfg.thresholds[i]), logger);
      if logger.mutex != M.Free {
        OwnerCanGoOn(cfg, st, i);
      } else if h.entered {
        assert M.Enabled(Passes(cfg.thresholds[i]), logger, M.PushLock(s));
        assert Enabled(cfg, st, Push(s, M.PushLock(s)));
      } else {
        assert s !in logger.pushers;
        assert Enabled(cfg, st, Push(s, M.PushStart(s, Tag(s, h.batch))));
      }
    }
  }

  lemma WorkerCanGoOn(cfg: Config, st: State, i: nat)
    requires Inv(cfg, st) && st.phase.Clearing? && i < |st.loggers| && st.loggers[i].worker != M.Crashed
    requires st.loggers[i].mutex == M.ByWorker
             || (st.loggers[i].destructor == M.Joining && st.loggers[i].worker != M.Exited)
    ensures exists a :: Enabled(cfg, st, a) && IsCalm(a)
  {
    var logger := st.loggers[i];
    var passes := Passes(cfg.thresholds[i]);
    assert M.Inv(passes, logger);
    DestructionIsQuiet(cfg, st);
    if logger.mutex == M.ByWorker {
      M.OwnerCanGoOn(passes, logger);
    } else {
      M.JoinMakesProgress(passes, logger);
    }
    var a := if logger.mutex == M.ByWorker then M.OwnerStep(logger) else M.NextStep(passes, logger);
    assert Enabled(cfg, st, Worker(i, a));
  }

  lemma DestructionCanGoOn(cfg: Config, st: State)
    requires Inv(cfg, st) && st.phase.Clearing? && st.phase.cleared < |st.loggers|
    requires st.loggers[st.phase.cleared].worker != M.Crashed
    ensures exists a :: Enabled(cfg, st, a) && IsCalm(a)
  {
    var i := st.phase.cleared;
    var logger := st.loggers[i];
    assert M.Inv(Passes(cfg.thresholds[i]), logger);
    DestructionIsQuiet(cfg, st);
    if logger.destructor == M.Joined {
      assert Enabled(cfg, st, ClearNext);
    } else if logger.mutex == M.ByWorker || (logger.destructor == M.Joining && logger.worker != M.Exited) {
      WorkerCanGoOn(cfg, st, i);
    } else {
      var d := match logger.destructor
        case Alive => M.DestructorStart
        case WantsLock => M.DestructorLock
        case HoldsLock => M.DestructorSetDone
        case DoneSet => M.DestructorUnlock
        case OwesNotify => M.DestructorNotify
        case _ => M.DestructorJoin;
      assert M.Enabled(Passes(cfg.thresholds[i]), logger, d);
      assert Enabled(cfg, st, Destroy(d));
    }
  }

  lemma ThreadsCanBeJoined(cfg: Config, st: State)
    requires Inv(cfg, st) && st.phase.JoiningThreads?
    ensures exists a :: Enabled(cfg, st, a) && IsCalm(a)
  {
    var joined := st.phase.joined;
    if joined == |st.threads| {
      assert Enabled(cfg, st, StartClearing);
    } else {
      match st.threads[joined]
      case Idle => assert Enabled(cfg, st, FinishThread(joined));
      case Finished => assert Enabled(cfg, st, JoinThread);
      case Handling(s) => HandlerCanGoOn(cfg, st, s);
    }
  }

  /** The final flush of some logger threw. */
  ghost predicate Crashed(st: State) {
    exists i :: 0 <= i < |st.loggers| && st.loggers[i].worker == M.Crashed
  }

  /** ~Server cannot deadlock: from the moment it has stopped the I/O context until all loggers are
      destroyed there is always a step that brings the teardown forward, unless a final flush threw. */
  lemma TeardownNeverStuck(cfg: Config, run: seq<Action>)
    requires Legal(cfg, run) && After(cfg, run).phase != Up && After(cfg, run).phase != Clearing(|cfg.thresholds|)
    requires !Crashed(After(cfg, run))
    ensures exists a :: Enabled(cfg, After(cfg, run), a) && IsCalm(a)
  {
    Safety(cfg, run);
    var st := After(cfg, run);
    if st.phase.JoiningThreads? {
      ThreadsCanBeJoined(cfg, st);
    } else {
      DestructionCanGoOn(cfg, st);
    }
  }

  // ----- The work left -----

  // A measure of what is left to do until all loggers are destroyed. Every progress step after the
  // I/O context has been stopped makes it smaller.

  /** What the measure needs to know of the loggers. */
  ghost predicate WorkersOk(st: State) {
    forall i :: 0 <= i < |st.loggers| ==>
      st.loggers[i].pos <= |st.loggers[i].batch| && M.HasReason(st.loggers[i])
  }

  /** What pushing `n` elements to `k` loggers takes. */
  function PushesWork(k: nat, n: nat): nat {
    if k == 0 then 0 else 10 * n + 10 + PushesWork(k - 1, n)
  }

  /** What is left of a session's fan-out. */
  function HandlerWork(st: State, s: nat): nat {
    if !IsFanningOut(st, s) || st.sessions[s].handler.next > |st.loggers| then 0
    else
      var h := st.sessions[s].handler;
      var ahead := |st.loggers| - h.next;
      if h.entered && ahead > 0 && s in st.loggers[h.next].pushers
      then 1 + M.PusherWork(st.loggers[h.next].pushers[s]) + PushesWork(ahead - 1, |h.batch|)
      else 1 + PushesWork(ahead, |h.batch|)
  }

  function ThreadWork(t: Thread): nat {
    match t
    case Handling(_) => 2
    case Idle => 1
    case Finished => 0
  }

  function PhaseWork(st: State): nat {
    match st.phase
    case Up => |st.threads| + |st.loggers| + 2
    case JoiningThreads(joined) => |st.loggers| + 1 + if joined <= |st.threads| then |st.threads| - joined else 0
    case Clearing(cleared) => if cleared <= |st.loggers| then |st.loggers| - cleared else 0
  }

  function HandlerWorks(st: State): seq<nat> {
    seq(|st.sessions|, s requires 0 <= s < |st.sessions| => HandlerWork(st, s))
  }

  ghost function LoggerWorks(st: State): seq<nat>
    requires WorkersOk(st)
  {
    seq(|st.loggers|, i requires 0 <= i < |st.loggers| => M.Work(st.loggers[i]))
  }

  function ThreadWorks(st: State): seq<nat> {
    seq(|st.threads|, t requires 0 <= t < |st.threads| => ThreadWork(st.threads[t]))
  }

  ghost function Work(st: State): nat
    requires WorkersOk(st)
  {
    Sum(HandlerWorks(st)) + Sum(LoggerWorks(st)) + Sum(ThreadWorks(st)) + PhaseWork(st)
  }

  lemma {:induction false} TagLength(session: nat, batch: seq<Element>)
    ensures |Tag(session, batch)| == |batch|
  {
    if batch == [] {
    } else {
      TagLength(session, Front(batch));
    }
  }

  lemma InvWorkers(cfg: Config, st: State)
    requires Inv(cfg, st)
    ensures WorkersOk(st)
  {
    forall i | 0 <= i < |st.loggers|
      ensures st.loggers[i].pos <= |st.loggers[i].batch| && M.HasReason(st.loggers[i])
    {
      assert M.Inv(Passes(cfg.thresholds[i]), st.loggers[i]);
    }
  }

  /** What a step of logger `i` does to the sum over the loggers. */
  lemma LoggerSum(passes: Tagged -> bool, st: State, st': State, i: nat, m: M.Action<Tagged>)
    requires WorkersOk(st) && WorkersOk(st') && i < |st.loggers| && M.Enabled(passes, st.loggers[i], m)
    requires st'.loggers == st.loggers[i := M.Apply(passes, st.loggers[i], m)]
    ensures Sum(LoggerWorks(st')) + (if m.IsPush() || m == M.WorkerSpuriousWakeup then 0 else 1)
            <= Sum(LoggerWorks(st)) + M.Added(st.loggers[i], m)
  {
    M.StepWork(passes, st.loggers[i], m);
    assert LoggerWorks(st') == LoggerWorks(st)[i := M.Work(st'.loggers[i])];
    SumUpdate(LoggerWorks(st), i, M.Work(st'.loggers[i]));
  }

  lemma HandlerSum(st: State, st': State, s: nat)
    requires s < |st.sessions| == |st'.sessions|
    requires forall s' :: 0 <= s' < |st.sessions| && s' != s ==> HandlerWork(st', s') == HandlerWork(st, s')
    ensures Sum(HandlerWorks(st')) + HandlerWork(st, s) == Sum(HandlerWorks(st)) + HandlerWork(st', s)
  {
    assert HandlerWorks(st') == HandlerWorks(st)[s := HandlerWork(st', s)];
    SumUpdate(HandlerWorks(st), s, HandlerWork(st', s));
  }

  lemma ThreadSum(st: State, st': State, t: nat)
    requires t < |st.threads| == |st'.threads| && st'.threads == st.threads[t := st'.threads[t]]
    ensures Sum(ThreadWorks(st')) + ThreadWork(st.threads[t]) == Sum(ThreadWorks(st)) + ThreadWork(st'.threads[t])
  {
    assert ThreadWorks(st') == ThreadWorks(st)[t := ThreadWork(st'.threads[t])];
    SumUpdate(ThreadWorks(st), t, ThreadWork(st'.threads[t]));
  }

  lemma SameHandlerWorks(st: State, st': State)
    requires st'.sessions == st.sessions && SamePushes(st, st')
    ensures HandlerWorks(st') == HandlerWorks(st)
  {
    forall s | 0 <= s < |st.sessions|
      ensures HandlerWork(st', s) == HandlerWork(st, s)
    {
    }
  }

  /** A push step does part of the fan-out's work; what it inserts becomes work of the logger. */
  lemma PushHandlerWork(st: State, st': State, s: nat, p: M.Action<Tagged>)
    requires PushersOk(st) && PushEffect(st, st', s, p)
    ensures HandlerWork(st', s) + M.Added(st.loggers[st.sessions[s].handler.next], p) < HandlerWork(st, s)
    ensures forall s' :: 0 <= s' < |st.sessions| && s' != s ==> HandlerWork(st', s') == HandlerWork(st, s')
  {
    var h := st.sessions[s].handler;
    TagLength(s, h.batch);
    forall s' | 0 <= s' < |st.sessions| && s' != s
      ensures HandlerWork(st', s') == HandlerWork(st, s')
    {
      assert st'.sessions[s'] == st.sessions[s'];
    }
  }

  lemma PushWork(cfg: Config, st: State, s: nat, p: M.Action<Tagged>)
    requires |st.loggers| == |cfg.thresholds| && PushersOk(st) && WorkersOk(st)
    requires Enabled(cfg, st, Push(s, p)) && WorkersOk(Apply(cfg, st, Push(s, p)))
    ensures Work(Apply(cfg, st, Push(s, p))) < Work(st)
  {
    var st' := Apply(cfg, st, Push(s, p));
    var i := st.sessions[s].handler.next;
    LoggerSum(Passes(cfg.thresholds[i]), st, st', i, p);
    PushStep(cfg, st, s, p);
    PushHandlerWork(st, st', s, p);
    HandlerSum(st, st', s);
    assert ThreadWorks(st') == ThreadWorks(st);
  }

  /** A step of a worker or of the destructor of logger `i`. */
  lemma LoggerWork(cfg: Config, st: State, a: Action, i: nat, m: M.Action<Tagged>)
    requires |st.loggers| == |cfg.thresholds| && WorkersOk(st) && Enabled(cfg, st, a) && WorkersOk(Apply(cfg, st, a))
    requires a == Worker(i, m) || (a == Destroy(m) && st.phase.Clearing? && i == st.phase.cleared)
    ensures Work(Apply(cfg, st, a)) + (if IsProgress(a) then 1 else 0) <= Work(st) + if IsProgress(a) then 0 else 3
  {
    var st' := Apply(cfg, st, a);
    LoggerSum(Passes(cfg.thresholds[i]), st, st', i, m);
    OtherStep(cfg, st, a);
    SameHandlerWorks(st, st');
    assert ThreadWorks(st') == ThreadWorks(st);
  }

  lemma EndFanOutHandlers(st: State, st': State, s: nat)
    requires IsFanningOut(st, s) && st.sessions[s].handler.next == |st.loggers| && st'.loggers == st.loggers
    requires st'.sessions == st.sessions[s := st.sessions[s].(handler := Reading)]
    ensures Sum(HandlerWorks(st')) < Sum(HandlerWorks(st))
  {
    forall s' | 0 <= s' < |st.sessions| && s' != s
      ensures HandlerWork(st', s') == HandlerWork(st, s')
    {
      assert st'.sessions[s'] == st.sessions[s'];
    }
    HandlerSum(st, st', s);
  }

  lemma EndFanOutWork(cfg: Config, st: State, s: nat)
    requires |st.loggers| == |cfg.thresholds| && ThreadsOk(st) && WorkersOk(st)
    requires Enabled(cfg, st, EndFanOut(s)) && WorkersOk(Apply(cfg, st, EndFanOut(s)))
    ensures Work(Apply(cfg, st, EndFanOut(s))) < Work(st)
  {
    var st' := Apply(cfg, st, EndFanOut(s));
    EndFanOutHandlers(st, st', s);
    ThreadSum(st, st', st.sessions[s].handler.thread);
    assert LoggerWorks(st') == LoggerWorks(st);
  }

  lemma PhaseStepWork(cfg: Config, st: State, a: Action)
    requires |st.loggers| == |cfg.thresholds| && WorkersOk(st) && Enabled(cfg, st, a) && WorkersOk(Apply(cfg, st, a))
    requires a.FinishThread? || a.JoinThread? || a.StartClearing? || a.ClearNext?
    ensures Work(Apply(cfg, st, a)) < Work(st)
  {
    var st' := Apply(cfg, st, a);
    SameHandlerWorks(st, st');
    assert LoggerWorks(st') == LoggerWorks(st);
    if a.FinishThread? {
      ThreadSum(st, st', a.thread);
    }
  }

  predicate IsSpurious(a: Action) {
    a.Worker? && a.work == M.WorkerSpuriousWakeup
  }

  lemma ProgressWork(cfg: Config, st: State, a: Action)
    requires |st.loggers| == |cfg.thresholds| && PushersOk(st) && ThreadsOk(st) && WorkersOk(st)
    requires Enabled(cfg, st, a) && WorkersOk(Apply(cfg, st, a)) && IsProgress(a)
    ensures Work(Apply(cfg, st, a)) < Work(st)
  {
    match a
    case Push(s, p) => PushWork(cfg, st, s, p);
    case Worker(i, w) => LoggerWork(cfg, st, a, i, w);
    case Destroy(d) => LoggerWork(cfg, st, a, st.phase.cleared, d);
    case EndFanOut(s) => EndFanOutWork(cfg, st, s);
    case _ => PhaseStepWork(cfg, st, a);
  }

  lemma StaysStopped(cfg: Config, st: State, a: Action)
    requires |st.loggers| == |cfg.thresholds| && Enabled(cfg, st, a) && st.phase != Up
    ensures Apply(cfg, st, a).phase != Up && (IsProgress(a) || IsSpurious(a))
  {
  }

  /** A progress step leaves less work, a spurious wakeup at most three steps more. */
  lemma WorkStep(cfg: Config, st: State, a: Action)
    requires Inv(cfg, st) && Enabled(cfg, st, a)
    ensures var st' := Apply(cfg, st, a);
            && WorkersOk(st) && WorkersOk(st')
            && (IsProgress(a) ==> Work(st') < Work(st))
            && (IsSpurious(a) ==> Work(st') <= Work(st) + 3)
  {
    InvWorkers(cfg, st);
    InvKept(cfg, st, a);
    InvWorkers(cfg, Apply(cfg, st, a));
    if IsProgress(a) {
      ProgressWork(cfg, st, a);
    } else if IsSpurious(a) {
      LoggerWork(cfg, st, a, a.logger, a.work);
    }
  }

  /** After the I/O context has been stopped nothing happens but progress steps, each of which brings
      the teardown forward, and spurious wakeups, which set it back by at most three steps. */
  lemma TeardownStep(cfg: Config, st: State, a: Action)
    requires Inv(cfg, st) && st.phase != Up && Enabled(cfg, st, a)
    ensures var st' := Apply(cfg, st, a);
            && st'.phase != Up && WorkersOk(st) && WorkersOk(st')
            && (IsProgress(a) || IsSpurious(a))
            && (IsProgress(a) ==> Work(st') < Work(st))
            && (IsSpurious(a) ==> Work(st') <= Work(st) + 3)
  {
    StaysStopped(cfg, st, a);
    WorkStep(cfg, st, a);
  }

  function ProgressSteps(run: seq<Action>): nat {
    if run == [] then 0 else ProgressSteps(Front(run)) + if IsProgress(Last(run)) then 1 else 0
  }

  function SpuriousWakeups(run: seq<Action>): nat {
    if run == [] then 0 else SpuriousWakeups(Front(run)) + if IsSpurious(Last(run)) then 1 else 0
  }

  lemma LegalPrefix(cfg: Config, run: seq<Action>, more: seq<Action>)
    requires more != [] && Legal(cfg, run + more)
    ensures Legal(cfg, run + Front(more))
    ensures Enabled(cfg, After(cfg, run + Front(more)), Last(more))
    ensures After(cfg, run + more) == Apply(cfg, After(cfg, run + Front(more)), Last(more))
  {
    assert Front(run + more) == run + Front(more);
  }

  predicate IsWork(a: Action) {
    IsProgress(a) || IsSpurious(a)
  }

  ghost predicate IsAllWork(run: seq<Action>) {
    forall a :: a in run ==> IsWork(a)
  }

  lemma BoundedStep(cfg: Config, st: State, a: Action, progress: nat, spurious: nat, bound: int)
    requires Inv(cfg, st) && WorkersOk(st) && Enabled(cfg, st, a) && IsWork(a)
    requires progress + Work(st) <= bound + 3 * spurious
    ensures var st' := Apply(cfg, st, a);
            && WorkersOk(st')
            && (progress + if IsProgress(a) then 1 else 0) + Work(st')
               <= bound + 3 * (spurious + if IsSpurious(a) then 1 else 0)
  {
    WorkStep(cfg, st, a);
  }

  /** Without new work, a run takes at most as many progress steps as there is work left, plus three
      for each spurious wakeup. */
  lemma {:induction false} BoundedWork(cfg: Config, run: seq<Action>, more: seq<Action>)
    requires Legal(cfg, run) && Legal(cfg, run + more) && IsAllWork(more)
    ensures var st, st' := After(cfg, run), After(cfg, run + more);
            && WorkersOk(st) && WorkersOk(st')
            && ProgressSteps(more) + Work(st') <= Work(st) + 3 * SpuriousWakeups(more)
  {
    if more == [] {
      assert run + more == run;
      Safety(cfg, run);
      InvWorkers(cfg, After(cfg, run));
    } else {
      LegalPrefix(cfg, run, more);
      BoundedWork(cfg, run, Front(more));
      Safety(cfg, run + Front(more));
      BoundedStep(cfg, After(cfg, run + Front(more)), Last(more),
                  ProgressSteps(Front(more)), SpuriousWakeups(Front(more)), Work(After(cfg, run)));
    }
  }

  lemma {:induction false} OnlyWorkAfterStop(cfg: Config, run: seq<Action>, more: seq<Action>)
    requires Legal(cfg, run) && After(cfg, run).phase != Up && Legal(cfg, run + more)
    ensures After(cfg, run + more).phase != Up && IsAllWork(more)
    ensures |more| == ProgressSteps(more) + SpuriousWakeups(more)
  {
    if more == [] {
      assert run + more == run;
    } else {
      LegalPrefix(cfg, run, more);
      OnlyWorkAfterStop(cfg, run, Front(more));
      StaysStopped(cfg, After(cfg, run + Front(more)), Last(more));
    }
  }

  /** ~Server comes to an end: after Stop a run takes at most as many progress steps as there is
      work, plus three for each spurious wakeup. */
  lemma BoundedTeardown(cfg: Config, run: seq<Action>, more: seq<Action>)
    requires Legal(cfg, run) && After(cfg, run).phase != Up && Legal(cfg, run + more)
    ensures var st, st' := After(cfg, run), After(cfg, run + more);
            && st'.phase != Up && WorkersOk(st) && WorkersOk(st')
            && |more| == ProgressSteps(more) + SpuriousWakeups(more)
            && ProgressSteps(more) + Work(st') <= Work(st) + 3 * SpuriousWakeups(more)
  {
    OnlyWorkAfterStop(cfg, run, more);
    BoundedWork(cfg, run, more);
  }

  /** When all loggers are destroyed nothing is left to do. */
  lemma NothingAfterDestruction(cfg: Config, st: State, a: Action)
    requires Inv(cfg, st) && st.phase == Clearing(|st.loggers|)
    ensures !Enabled(cfg, st, a)
  {
    DestructionIsQuiet(cfg, st);
    if a.Worker? && a.logger < |st.loggers| {
      assert M.Inv(Passes(cfg.thresholds[a.logger]), st.loggers[a.logger]);
    }
  }

  /** The teardown comes to rest only at its end: after Stop, unless a final flush threw, no
      progress step is left if and only if all loggers are destroyed. */
  lemma TeardownEndsExactlyWhen(cfg: Config, run: seq<Action>)
    requires Legal(cfg, run) && After(cfg, run).phase != Up && !Crashed(After(cfg, run))
    ensures (forall a :: Enabled(cfg, After(cfg, run), a) ==> !IsProgress(a))
            <==> After(cfg, run).phase == Clearing(|cfg.thresholds|)
  {
    var st := After(cfg, run);
    if st.phase == Clearing(|cfg.thresholds|) {
      Safety(cfg, run);
      forall a
        ensures !Enabled(cfg, st, a)
      {
        NothingAfterDestruction(cfg, st, a);
      }
    } else {
      TeardownNeverStuck(cfg, run);
      var a :| Enabled(cfg, st, a) && IsCalm(a);
    }
  }

  // ----- Delivery before shutdown -----

  /** No fan-out is in progress and every worker sleeps with nothing left to take. */
  ghost predicate AtRest(st: State) {
    && Quiescent(st)
    && forall i :: 0 <= i < |st.loggers| ==>
         st.loggers[i].worker == M.Blocked && st.loggers[i].queue == [] && st.loggers[i].batch == []
  }

  lemma QuiescentHasNoPushers(st: State, i: nat)
    requires PushersOk(st) && Quiescent(st) && i < |st.loggers|
    ensures st.loggers[i].pushers == map[]
  {
    assert forall s :: s in st.loggers[i].pushers ==> IsFanningOut(st, s);
    assert st.loggers[i].pushers.Keys == {};
  }

  lemma WorkerOfQuietServer(cfg: Config, st: State, i: nat)
    requires Inv(cfg, st) && st.phase == Up && Quiescent(st) && i < |st.loggers|
    ensures var logger := st.loggers[i];
            if logger.worker == M.Blocked then logger.queue == [] && logger.batch == []
            else exists a :: Enabled(cfg, st, a) && IsCalm(a)
  {
    var logger := st.loggers[i];
    var passes := Passes(cfg.thresholds[i]);
    assert M.Inv(passes, logger);
    QuiescentHasNoPushers(st, i);
    if logger.worker != M.Blocked {
      M.AwakeCanGoOn(passes, logger);
      assert Enabled(cfg, st, Worker(i, M.NextStep(passes, logger)));
    }
  }

  lemma DeliveryCanGoOn(cfg: Config, st: State)
    requires Inv(cfg, st) && st.phase == Up && !AtRest(st)
    ensures exists a :: Enabled(cfg, st, a) && IsCalm(a)
  {
    if !Quiescent(st) {
      var s: nat :| s < |st.sessions| && IsFanningOut(st, s);
      HandlerCanGoOn(cfg, st, s);
    } else {
      var i: nat :| i < |st.loggers|
                    && !(st.loggers[i].worker == M.Blocked && st.loggers[i].queue == [] && st.loggers[i].batch == []);
      WorkerOfQuietServer(cfg, st, i);
    }
  }

  lemma RestHasNoProgress(cfg: Config, st: State, a: Action)
    requires Inv(cfg, st) && st.phase == Up && AtRest(st) && Enabled(cfg, st, a)
    ensures !IsProgress(a)
  {
  }

  /** While the server is up, no progress step is left if and only if every fan-out is complete and
      every worker sleeps with an empty queue. */
  lemma DeliveryEndsExactlyWhen(cfg: Config, run: seq<Action>)
    requires Legal(cfg, run) && After(cfg, run).phase == Up
    ensures (forall a :: Enabled(cfg, After(cfg, run), a) ==> !IsProgress(a)) <==> AtRest(After(cfg, run))
  {
    Safety(cfg, run);
    var st := After(cfg, run);
    if AtRest(st) {
      forall a | Enabled(cfg, st, a)
        ensures !IsProgress(a)
      {
        RestHasNoProgress(cfg, st, a);
      }
    } else {
      DeliveryCanGoOn(cfg, st);
      var a :| Enabled(cfg, st, a) && IsCalm(a);
    }
  }

  /** At rest nothing is missing: the log of a sink that never threw is, per session, the level-filtered
      image of all messages in the bytes received. */
  lemma RestIsComplete(cfg: Config, run: seq<Action>, s: nat, i: nat)
    requires Legal(cfg, run) && AtRest(After(cfg, run)) && s < |After(cfg, run).sessions| && i < |cfg.thresholds|
    requires M.FaultFree(After(cfg, run).loggers[i].history)
    ensures var st := After(cfg, run);
            Only(s, st.loggers[i].sink.log)
            == Filter(Reaches(cfg.thresholds[i]), Emitted(cfg.decode, st.sessions[s].received))
  {
    var st := After(cfg, run);
    var logger := st.loggers[i];
    EmittedIsPartitioned(cfg, run, s, i);
    EndToEnd(cfg, run, s, i);
    var all, n := Emitted(cfg.decode, st.sessions[s].received), ProcessedCount(cfg, run, s, i);
    assert logger.batch[logger.pos..] == [] && Pending(st, s, i) == [];
    assert all == Only(s, M.Processed(logger)) + [] + [] + [] == all[..n];
  }

  /** In other words: each element of a session that reaches the sink's level has been logged as often as
      it was sent, and no other element has. */
  lemma RestCounts(cfg: Config, run: seq<Action>, s: nat, i: nat, e: Element)
    requires Legal(cfg, run) && AtRest(After(cfg, run)) && s < |After(cfg, run).sessions| && i < |cfg.thresholds|
    requires M.FaultFree(After(cfg, run).loggers[i].history)
    ensures var st := After(cfg, run);
            multiset(st.loggers[i].sink.log)[Tagged(s, e)]
            == if e.level >= cfg.thresholds[i]
               then multiset(Emitted(cfg.decode, st.sessions[s].received))[e] else 0
  {
    var st := After(cfg, run);
    RestIsComplete(cfg, run, s, i);
    CountOnly(st.loggers[i].sink.log, Tagged(s, e));
    FilterCounts(Reaches(cfg.thresholds[i]), Emitted(cfg.decode, st.sessions[s].received), e);
  }

  /** What calm steps leave as it is. */
  ghost predicate Undisturbed(st: State, st': State) {
    && st'.phase == st.phase && |st'.threads| == |st.threads|
    && |st'.sessions| == |st.sessions| && |st'.loggers| == |st.loggers|
    && (forall s :: 0 <= s < |st.sessions| ==>
          && st'.sessions[s].received == st.sessions[s].received
          && (st'.sessions[s].handler == Closed <==> st.sessions[s].handler == Closed))
    && (forall i :: 0 <= i < |st.loggers| && M.FaultFree(st.loggers[i].history) ==>
          M.FaultFree(st'.loggers[i].history))
  }

  lemma FaultFreeKept(passes: Tagged -> bool, s: M.State<Tagged>, a: M.Action<Tagged>)
    requires M.Enabled(passes, s, a) && !M.IsFault(a) && M.FaultFree(s.history)
    ensures M.FaultFree(M.Apply(passes, s, a).history)
  {
  }

  lemma CalmStepDisturbsNothing(cfg: Config, st: State, a: Action)
    requires |st.loggers| == |cfg.thresholds| && st.phase == Up && Enabled(cfg, st, a) && IsCalm(a)
    ensures Undisturbed(st, Apply(cfg, st, a))
  {
    var st' := Apply(cfg, st, a);
    forall i | 0 <= i < |st.loggers| && M.FaultFree(st.loggers[i].history)
      ensures M.FaultFree(st'.loggers[i].history)
    {
      match a
      case Push(s, p) =>
        if i == st.sessions[s].handler.next {
          FaultFreeKept(Passes(cfg.thresholds[i]), st.loggers[i], p);
        }
      case Worker(j, w) =>
        if i == j {
          FaultFreeKept(Passes(cfg.thresholds[i]), st.loggers[i], w);
        }
      case _ =>
    }
  }

  ghost predicate LeadsTo(cfg: Config, run: seq<Action>, st: State) {
    Legal(cfg, run) && After(cfg, run) == st
  }

  ghost predicate IsCalmRun(run: seq<Action>) {
    forall a :: a in run ==> IsCalm(a)
  }

  lemma OneMore(cfg: Config, run: seq<Action>, a: Action)
    requires Legal(cfg, run) && Enabled(cfg, After(cfg, run), a)
    ensures LeadsTo(cfg, run + [a], Apply(cfg, After(cfg, run), a))
  {
    assert Front(run + [a]) == run;
  }

  ghost predicate CanComeToRest(cfg: Config, run: seq<Action>, st: State) {
    exists more, st' :: IsCalmRun(more) && LeadsTo(cfg, run + more, st') && AtRest(st') && Undisturbed(st, st')
  }

  lemma RestAfterStep(cfg: Config, run: seq<Action>, st: State, a: Action, st1: State)
    requires IsCalm(a) && Undisturbed(st, st1) && CanComeToRest(cfg, run + [a], st1)
    ensures CanComeToRest(cfg, run, st)
  {
    var more, st' :| IsCalmRun(more) && LeadsTo(cfg, (run + [a]) + more, st') && AtRest(st') && Undisturbed(st1, st');
    assert (run + [a]) + more == run + ([a] + more);
    assert IsCalmRun([a] + more);
    assert Undisturbed(st, st');
  }

  lemma RestAlready(cfg: Config, run: seq<Action>, st: State)
    requires LeadsTo(cfg, run, st) && AtRest(st)
    ensures CanComeToRest(cfg, run, st)
  {
    assert run + [] == run;
    assert IsCalmRun([]) && LeadsTo(cfg, run + [], st) && Undisturbed(st, st);
  }

  lemma {:induction false} RestFrom(cfg: Config, run: seq<Action>, st: State)
    requires LeadsTo(cfg, run, st) && Inv(cfg, st) && WorkersOk(st) && st.phase == Up
    ensures CanComeToRest(cfg, run, st)
    decreases Work(st)
  {
    if AtRest(st) {
      RestAlready(cfg, run, st);
    } else {
      DeliveryCanGoOn(cfg, st);
      var a :| Enabled(cfg, st, a) && IsCalm(a);
      OneMore(cfg, run, a);
      InvKept(cfg, st, a);
      WorkStep(cfg, st, a);
      CalmStepDisturbsNothing(cfg, st, a);
      RestFrom(cfg, run + [a], Apply(cfg, st, a));
      RestAfterStep(cfg, run, st, a, Apply(cfg, st, a));
    }
  }

  /** As long as the server is up, every run can be continued, without new work and without faults, until
      everything that was received has been delivered to every sink. */
  lemma ComesToRest(cfg: Config, run: seq<Action>)
    requires Legal(cfg, run) && After(cfg, run).phase == Up
    ensures exists more, st' :: IsCalmRun(more) && LeadsTo(cfg, run + more, st')
                                && AtRest(st') && Undisturbed(After(cfg, run), st')
  {
    Safety(cfg, run);
    InvWorkers(cfg, After(cfg, run));
    RestFrom(cfg, run, After(cfg, run));
  }

  /** Session `s` is open on a server that is up and whose sinks have not thrown. */
  ghost predicate CanReceive(st: State, s: nat) {
    && st.phase == Up && |st.threads| > 0 && s < |st.sessions| && st.sessions[s].handler != Closed
    && forall i :: 0 <= i < |st.loggers| ==> M.FaultFree(st.loggers[i].history)
  }

  ghost predicate HasReceived(cfg: Config, run: seq<Action>, s: nat, received: string) {
    && Legal(cfg, run)
    && var st := After(cfg, run);
    && CanReceive(st, s) && AtRest(st) && st.sessions[s].received == received
  }

  ghost predicate CanHaveReceived(cfg: Config, run: seq<Action>, s: nat, received: string) {
    exists more :: HasReceived(cfg, run + more, s, received)
  }

  lemma RestHasReceived(cfg: Config, run: seq<Action>, s: nat)
    requires Legal(cfg, run) && CanReceive(After(cfg, run), s)
    ensures CanHaveReceived(cfg, run, s, After(cfg, run).sessions[s].received)
  {
    ComesToRest(cfg, run);
    var more, st' :| IsCalmRun(more) && LeadsTo(cfg, run + more, st')
                     && AtRest(st') && Undisturbed(After(cfg, run), st');
    assert HasReceived(cfg, run + more, s, After(cfg, run).sessions[s].received);
  }

  /** A server at rest has a thread for the next read. */
  lemma RestCanRead(cfg: Config, st: State, s: nat, chunk: string)
    requires Inv(cfg, st) && CanReceive(st, s) && AtRest(st) && |chunk| <= 1024
    ensures Enabled(cfg, st, Read(0, s, chunk))
    ensures var st' := Apply(cfg, st, Read(0, s, chunk));
            CanReceive(st', s) && st'.sessions[s].received == st.sessions[s].received + chunk
  {
    assert !IsFanningOut(st, s);
    assert st.threads[0].Handling? ==> IsFanningOut(st, st.threads[0].session);
  }

  lemma OneMoreChunk(cfg: Config, run: seq<Action>, s: nat, received: string, chunk: string)
    requires HasReceived(cfg, run, s, received) && |chunk| <= 1024
    ensures CanHaveReceived(cfg, run, s, received + chunk)
  {
    var read := Read(0, s, chunk);
    Safety(cfg, run);
    RestCanRead(cfg, After(cfg, run), s, chunk);
    OneMore(cfg, run, read);
    RestHasReceived(cfg, run + [read], s);
    ContinuedRun(cfg, run, [read], s, received + chunk);
  }

  lemma ContinuedRun(cfg: Config, run: seq<Action>, more: seq<Action>, s: nat, received: string)
    requires CanHaveReceived(cfg, run + more, s, received)
    ensures CanHaveReceived(cfg, run, s, received)
  {
    var last :| HasReceived(cfg, (run + more) + last, s, received);
    assert (run + more) + last == run + (more + last);
  }

  lemma {:induction false} ChunksAreReceived(cfg: Config, run: seq<Action>, s: nat, before: string, chunks: seq<string>)
    requires CanHaveReceived(cfg, run, s, before)
    requires forall chunk :: chunk in chunks ==> |chunk| <= 1024
    ensures CanHaveReceived(cfg, run, s, before + Flatten(chunks))
  {
    if chunks == [] {
      assert before + Flatten(chunks) == before;
    } else {
      var received := before + Flatten(Front(chunks));
      ChunksAreReceived(cfg, run, s, before, Front(chunks));
      var more :| HasReceived(cfg, run + more, s, received);
      OneMoreChunk(cfg, run + more, s, received, Last(chunks));
      ContinuedRun(cfg, run, more, s, received + Last(chunks));
      ConcatAssociates(before, Flatten(Front(chunks)), Last(chunks));
    }
  }

  /** `st` has logged exactly the image of `received` for session `s`, in every sink. */
  ghost predicate IsLogged(cfg: Config, st: State, s: nat, received: string) {
    && |st.loggers| == |cfg.thresholds| && s < |st.sessions| && st.sessions[s].received == received
    && forall i :: 0 <= i < |st.loggers| ==>
         Only(s, st.loggers[i].sink.log) == Filter(Reaches(cfg.thresholds[i]), Emitted(cfg.decode, received))
  }

  /** Whatever the server has been doing and whatever an open session still sends, in any chunks: the run can
      be continued so that every sink has logged all messages of the session that reach its level. */
  lemma StreamCanBeLogged(cfg: Config, run: seq<Action>, s: nat, chunks: seq<string>)
    requires Legal(cfg, run) && CanReceive(After(cfg, run), s)
    requires forall chunk :: chunk in chunks ==> |chunk| <= 1024
    ensures exists more, st' :: LeadsTo(cfg, run + more, st')
                                && IsLogged(cfg, st', s, After(cfg, run).sessions[s].received + Flatten(chunks))
  {
    RestHasReceived(cfg, run, s);
    ChunksAreReceived(cfg, run, s, After(cfg, run).sessions[s].received, chunks);
    var received := After(cfg, run).sessions[s].received + Flatten(chunks);
    var more :| HasReceived(cfg, run + more, s, received);
    var st' := After(cfg, run + more);
    forall i | 0 <= i < |st'.loggers|
      ensures Only(s, st'.loggers[i].sink.log) == Filter(Reaches(cfg.thresholds[i]), Emitted(cfg.decode, received))
    {
      RestIsComplete(cfg, run + more, s, i);
    }
    assert LeadsTo(cfg, run + more, st') && IsLogged(cfg, st', s, received);
  }

  /** In particular the first client of a new server can have any bytes logged. */
  lemma EveryStreamIsLogged(cfg: Config, chunks: seq<string>)
    requires cfg.threads > 0 && forall chunk :: chunk in chunks ==> |chunk| <= 1024
    ensures exists run, st :: LeadsTo(cfg, run, st) && IsLogged(cfg, st, 0, Flatten(chunks))
  {
    var start: seq<Action> := [];
    OneMore(cfg, start, Accept(0));
    StreamCanBeLogged(cfg, start + [Accept(0)], 0, chunks);
    assert [] + Flatten(chunks) == Flatten(chunks);
  }

  // ----- The end of a session -----

  lemma ClosedStays(cfg: Config, st: State, a: Action, s: nat)
    requires |st.loggers| == |cfg.thresholds| && Enabled(cfg, st, a) && s < |st.sessions|
    requires st.sessions[s].handler == Closed || (a.ReadError? && a.session == s)
    ensures var st' := Apply(cfg, st, a);
            && s < |st'.sessions| && st'.sessions[s] == st.sessions[s].(handler := Closed)
  {
  }

  /** A read that fails ends its session: nothing is received and no handler runs for it any more. */
  lemma {:induction false} ErrorEndsSession(cfg: Config, run: seq<Action>, t: nat, s: nat, more: seq<Action>)
    requires Legal(cfg, run) && Enabled(cfg, After(cfg, run), ReadError(t, s))
    requires Legal(cfg, run + ([ReadError(t, s)] + more))
    ensures var st, st' := After(cfg, run), After(cfg, run + ([ReadError(t, s)] + more));
            && s < |st.sessions| && s < |st'.sessions|
            && st'.sessions[s] == st.sessions[s].(handler := Closed)
  {
    var error := [ReadError(t, s)];
    if more == [] {
      assert error + more == error && Front(error) == [] && run + [] == run;
      LegalPrefix(cfg, run, error);
      ClosedStays(cfg, After(cfg, run), ReadError(t, s), s);
    } else {
      assert Front(error + more) == error + Front(more) && Last(error + more) == Last(more);
      LegalPrefix(cfg, run, error + more);
      ErrorEndsSession(cfg, run, t, s, Front(more));
      ClosedStays(cfg, After(cfg, run + (error + Front(more))), Last(more), s);
    }
  }
}
