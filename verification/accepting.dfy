/** How many accept operations are in flight while accept handlers run on several threads. Each
    completed accept runs a handler that arms every acceptor in turn (Server.Accept), so handlers
    on different threads interleave their arming steps. */
module Accepting {
  import opened Basics

  /** A thread is free, or runs a handler that is about to arm acceptor `next`. */
  datatype Thread = Free | Arming(next: nat)

  /** `fired` counts, per acceptor, the accepts that have completed; `finished` the handlers that
      have run to their end. */
  datatype State = State(outstanding: seq<nat>, fired: seq<nat>, threads: seq<Thread>, finished: nat)

  datatype Action = Fire(acceptor: nat, thread: nat) | Arm(thread: nat) | Finish(thread: nat)

  /** After the constructor's own call of accept(). */
  function Init(acceptors: nat, threads: nat): State {
    State(seq(acceptors, i => 1), seq(acceptors, i => 0), seq(threads, i => Free), 0)
  }

  predicate Enabled(st: State, a: Action) {
    a.thread < |st.threads| &&
    match a
    case Fire(i, t) => i < |st.outstanding| && st.outstanding[i] > 0 && i < |st.fired| && st.threads[t] == Free
    case Arm(t) => st.threads[t].Arming? && st.threads[t].next < |st.outstanding|
    case Finish(t) => st.threads[t] == Arming(|st.outstanding|)
  }

  function Apply(st: State, a: Action): State
    requires Enabled(st, a)
  {
    match a
    case Fire(i, t) =>
      st.(outstanding := st.outstanding[i := st.outstanding[i] - 1], fired := st.fired[i := st.fired[i] + 1],
          threads := st.threads[t := Arming(0)])
    case Arm(t) =>
      var i := st.threads[t].next;
      st.(outstanding := st.outstanding[i := st.outstanding[i] + 1], threads := st.threads[t := Arming(i + 1)])
    case Finish(t) => st.(threads := st.threads[t := Free], finished := st.finished + 1)
  }

  ghost predicate Legal(st: State, run: seq<Action>)
    decreases |run|, 0
  {
    run == [] || (Legal(st, Front(run)) && Enabled(After(st, Front(run)), Last(run)))
  }

  ghost function After(st: State, run: seq<Action>): State
    requires Legal(st, run)
    decreases |run|, 1
  {
    if run == [] then st else Apply(After(st, Front(run)), Last(run))
  }

  predicate HasArmed(t: Thread, i: nat) {
    t.Arming? && t.next > i
  }

  /** The running handlers that have already armed acceptor `i`. */
  function Armed(threads: seq<Thread>, i: nat): nat {
    if threads == [] then 0 else Armed(Front(threads), i) + if HasArmed(Last(threads), i) then 1 else 0
  }

  function Running(threads: seq<Thread>): nat {
    if threads == [] then 0 else Running(Front(threads)) + if Last(threads).Arming? then 1 else 0
  }

  lemma {:induction false} ArmedUpdate(threads: seq<Thread>, t: nat, x: Thread, i: nat)
    requires t < |threads|
    ensures Armed(threads[t := x], i) + (if HasArmed(threads[t], i) then 1 else 0)
            == Armed(threads, i) + (if HasArmed(x, i) then 1 else 0)
    ensures Running(threads[t := x]) + (if threads[t].Arming? then 1 else 0)
            == Running(threads) + (if x.Arming? then 1 else 0)
  {
    if t < |threads| - 1 {
      ArmedUpdate(Front(threads), t, x, i);
      assert Front(threads[t := x]) == Front(threads)[t := x];
    } else {
      assert Front(threads[t := x]) == Front(threads);
    }
  }

  ghost predicate Inv(k: nat, st: State) {
    && |st.outstanding| == |st.fired| == k
    && (forall i :: 0 <= i < k ==> st.outstanding[i] + st.fired[i] == 1 + st.finished + Armed(st.threads, i))
    && Sum(st.fired) == st.finished + Running(st.threads)
  }

  lemma InvKept(k: nat, st: State, a: Action)
    requires Inv(k, st) && Enabled(st, a)
    ensures Inv(k, Apply(st, a))
  {
    var st' := Apply(st, a);
    forall i: nat
      ensures Armed(st'.threads, i) + (if HasArmed(st.threads[a.thread], i) then 1 else 0)
              == Armed(st.threads, i) + (if HasArmed(st'.threads[a.thread], i) then 1 else 0)
    {
      ArmedUpdate(st.threads, a.thread, st'.threads[a.thread], i);
    }
    ArmedUpdate(st.threads, a.thread, st'.threads[a.thread], 0);
    if a.Fire? {
      SumUpdate(st.fired, a.acceptor, st.fired[a.acceptor] + 1);
    }
  }

  lemma {:induction false} InitInv(k: nat, threads: nat)
    ensures Inv(k, Init(k, threads))
  {
    SumConstant(k, 0);
    NoneArming(Init(k, threads).threads);
  }

  lemma {:induction false} SumConstant(k: nat, x: nat)
    ensures Sum(seq(k, i => x)) == k * x
  {
    if k == 0 {
    } else {
      SumConstant(k - 1, x);
      assert Front(seq(k, i => x)) == seq(k - 1, i => x);
    }
  }

  lemma {:induction false} NoneArming(threads: seq<Thread>)
    requires forall t :: 0 <= t < |threads| ==> threads[t] == Free
    ensures Running(threads) == 0 && forall i :: Armed(threads, i) == 0
  {
    if threads == [] {
    } else {
      NoneArming(Front(threads));
    }
  }

  lemma {:induction false} Safety(k: nat, threads: nat, run: seq<Action>)
    requires Legal(Init(k, threads), run)
    ensures Inv(k, After(Init(k, threads), run))
  {
    if run == [] {
      InitInv(k, threads);
    } else {
      Safety(k, threads, Front(run));
      InvKept(k, After(Init(k, threads), Front(run)), Last(run));
    }
  }

  lemma {:induction false} SumOfLevels(outstanding: seq<nat>, fired: seq<nat>, level: nat)
    requires |outstanding| == |fired|
    requires forall i :: 0 <= i < |fired| ==> outstanding[i] + fired[i] == level
    ensures Sum(outstanding) + Sum(fired) == |fired| * level
  {
    if fired == [] {
    } else {
      SumOfLevels(Front(outstanding), Front(fired), level);
    }
  }

  lemma {:induction false} PartOfSum(s: seq<nat>, i: nat)
    requires i < |s|
    ensures s[i] <= Sum(s)
  {
    if i == |s| - 1 {
    } else {
      PartOfSum(Front(s), i);
    }
  }

  lemma TotalOf(k: nat, finished: nat, outstanding: nat, fired: nat)
    requires k > 0 && outstanding + fired == k * (1 + finished) && fired == finished
    ensures outstanding == k + (k - 1) * finished
    ensures outstanding == k <==> k == 1 || finished == 0
  {
    assert k * (1 + finished) == k + k * finished;
    assert (k - 1) * finished == k * finished - finished;
    if k > 1 && finished > 0 {
      assert (k - 1) * finished >= finished;
    }
  }

  lemma QuietAccounting(k: nat, st: State)
    requires k > 0 && Inv(k, st) && forall t :: 0 <= t < |st.threads| ==> st.threads[t] == Free
    ensures Sum(st.fired) == st.finished
    ensures forall i :: 0 <= i < k ==> st.outstanding[i] == 1 + st.finished - st.fired[i] >= 1
    ensures Sum(st.outstanding) == k + (k - 1) * st.finished
    ensures Sum(st.outstanding) == k <==> k == 1 || st.finished == 0
  {
    NoneArming(st.threads);
    forall i | 0 <= i < k
      ensures st.fired[i] <= st.finished
    {
      PartOfSum(st.fired, i);
    }
    SumOfLevels(st.outstanding, st.fired, 1 + st.finished);
    TotalOf(k, st.finished, Sum(st.outstanding), Sum(st.fired));
  }

  /** Whenever no handler is running, after H completed handlers of which fired[i] were started by
      acceptor i: 1 + H - fired[i] accepts are in flight on acceptor i, so every acceptor is armed,
      and k + (k - 1) * H in all, so one per acceptor only for k = 1 or before the first handler. */
  lemma AcceptAccounting(k: nat, threads: nat, run: seq<Action>)
    requires k > 0 && Legal(Init(k, threads), run)
    requires var st := After(Init(k, threads), run); forall t :: 0 <= t < |st.threads| ==> st.threads[t] == Free
    ensures var st := After(Init(k, threads), run);
            && |st.outstanding| == |st.fired| == k
            && Sum(st.fired) == st.finished
            && (forall i :: 0 <= i < k ==> st.outstanding[i] == 1 + st.finished - st.fired[i] >= 1)
            && Sum(st.outstanding) == k + (k - 1) * st.finished
            && (Sum(st.outstanding) == k <==> k == 1 || st.finished == 0)
  {
    Safety(k, threads, run);
    QuietAccounting(k, After(Init(k, threads), run));
  }

  // ----- The counts are reached -----

  ghost predicate IsReached(k: nat, st: State) {
    exists run :: Legal(Init(k, 1), run) && After(Init(k, 1), run) == st
  }

  lemma OneMore(start: State, run: seq<Action>, a: Action)
    requires Legal(start, run) && Enabled(After(start, run), a)
    ensures Legal(start, run + [a]) && After(start, run + [a]) == Apply(After(start, run), a)
  {
    assert Front(run + [a]) == run;
  }

  lemma StepIsReached(k: nat, st: State, a: Action)
    requires IsReached(k, st) && Enabled(st, a)
    ensures IsReached(k, Apply(st, a))
  {
    var run :| Legal(Init(k, 1), run) && After(Init(k, 1), run) == st;
    OneMore(Init(k, 1), run, a);
  }

  lemma ReachedQuietly(k: nat, st: State)
    requires k > 0 && IsReached(k, st) && st.threads == [Free]
    ensures |st.outstanding| == |st.fired| == k && st.outstanding[0] >= 1
    ensures Sum(st.outstanding) == k + (k - 1) * st.finished
  {
    var run :| Legal(Init(k, 1), run) && After(Init(k, 1), run) == st;
    Safety(k, 1, run);
    QuietAccounting(k, st);
  }

  /** The state of a handler that has armed the first `n` acceptors. */
  function ArmedState(st: State, n: nat): State
    requires n <= |st.outstanding|
  {
    st.(outstanding := seq(|st.outstanding|, i requires 0 <= i < |st.outstanding| =>
                             st.outstanding[i] + if i < n then 1 else 0),
        threads := [Arming(n)])
  }

  lemma {:induction false} ArmsAreReached(k: nat, st: State, n: nat)
    requires IsReached(k, st) && st.threads == [Arming(0)] && n <= |st.outstanding|
    ensures IsReached(k, ArmedState(st, n))
  {
    if n == 0 {
      assert ArmedState(st, 0).outstanding == st.outstanding;
    } else {
      ArmsAreReached(k, st, n - 1);
      var before := ArmedState(st, n - 1);
      StepIsReached(k, before, Arm(0));
      assert Apply(before, Arm(0)).outstanding == ArmedState(st, n).outstanding;
    }
  }

  /** One accept on the first acceptor and the handler that it starts. */
  function AfterHandler(st: State): State
    requires st.outstanding != [] && st.fired != [] && st.outstanding[0] > 0 && st.threads == [Free]
  {
    var fired := Apply(st, Fire(0, 0));
    ArmedState(fired, |fired.outstanding|).(threads := [Free], finished := st.finished + 1)
  }

  lemma HandlerIsReached(k: nat, st: State)
    requires IsReached(k, st) && st.threads == [Free]
    requires st.outstanding != [] && st.fired != [] && st.outstanding[0] > 0
    ensures IsReached(k, AfterHandler(st))
  {
    var fired := Apply(st, Fire(0, 0));
    StepIsReached(k, st, Fire(0, 0));
    ArmsAreReached(k, fired, |fired.outstanding|);
    StepIsReached(k, ArmedState(fired, |fired.outstanding|), Finish(0));
  }

  /** The accounts are not empty words: with k acceptors and one thread there is, for every H, a run
      after which no handler is running, H have finished and k + (k - 1) * H accepts are in flight. */
  lemma {:induction false} EveryCountIsReached(k: nat, h: nat)
    requires k > 0
    ensures exists st :: IsReached(k, st) && st.threads == [Free] && st.finished == h
                         && Sum(st.outstanding) == k + (k - 1) * h
  {
    if h == 0 {
      var run: seq<Action> := [];
      assert Legal(Init(k, 1), run) && After(Init(k, 1), run) == Init(k, 1);
      ReachedQuietly(k, Init(k, 1));
    } else {
      EveryCountIsReached(k, h - 1);
      var st :| IsReached(k, st) && st.threads == [Free] && st.finished == h - 1
                && Sum(st.outstanding) == k + (k - 1) * (h - 1);
      ReachedQuietly(k, st);
      HandlerIsReached(k, st);
      ReachedQuietly(k, AfterHandler(st));
    }
  }

  /** With two acceptors one connection leaves three accepts in flight. */
  lemma AcceptsOutgrowAcceptors()
    ensures var run := [Fire(0, 0), Arm(0), Arm(0), Finish(0)];
            && Legal(Init(2, 1), run)
            && After(Init(2, 1), run) == State([1, 2], [1, 0], [Free], 1)
  {
    var start := Init(2, 1);
    var fire, arm := [Fire(0, 0)], [Arm(0)];
    assert start == State([1, 1], [0, 0], [Free], 0);
    OneMore(start, [], Fire(0, 0));
    OneMore(start, fire, Arm(0));
    OneMore(start, fire + arm, Arm(0));
    OneMore(start, fire + arm + arm, Finish(0));
    assert fire + arm + arm + [Finish(0)] == [Fire(0, 0), Arm(0), Arm(0), Finish(0)];
  }
}
